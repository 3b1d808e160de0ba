/** Who owns a router user: slug patterns on names and panel tokens in comments. */
module Owner {
  import opened Models
  import opened Text

  datatype ManagerInfo = ManagerInfo(id: int, slug: string)

  datatype Registry = Registry(separator: string, managers: seq<ManagerInfo>)

  function Pattern(separator: string, slug: string): string {
    slug + separator
  }

  function PanelComment(slug: string): string {
    "panel=" + slug
  }

  /** The four string tests. */
  ghost predicate CommentMatches(comment: string, slug: string) {
    var token := PanelComment(slug);
    || comment == token
    || HasPrefix(comment, token + "|")
    || HasSuffix(comment, "|" + token)
    || Contains(comment, "|" + token + "|")
  }

  ghost function ByName(ms: seq<ManagerInfo>, separator: string, name: string): int {
    if ms == [] then 0
    else if HasPrefix(name, Pattern(separator, ms[0].slug)) then ms[0].id
    else ByName(ms[1..], separator, name)
  }

  ghost function ByComment(ms: seq<ManagerInfo>, comment: string): int {
    if ms == [] then 0
    else if CommentMatches(comment, ms[0].slug) then ms[0].id
    else ByComment(ms[1..], comment)
  }

  /** The owner's id, or 0 for an orphan: the name decides first, then the comment. */
  ghost function Resolve(reg: Registry, name: string, comment: string): int {
    var byName := ByName(reg.managers, reg.separator, name);
    if byName != 0 then byName else ByComment(reg.managers, comment)
  }

  method CommentMatchesPanel(comment: string, slug: string) returns (matches: bool)
    ensures matches <==> CommentMatches(comment, slug)
  {
    var token := PanelComment(slug);
    if comment == token || HasPrefix(comment, token + "|") || HasSuffix(comment, "|" + token) {
      return true;
    }
    matches := FindSubstring(comment, "|" + token + "|");
  }

  ghost predicate IdsNonzero(ms: seq<ManagerInfo>) {
    forall i :: 0 <= i < |ms| ==> ms[i].id != 0
  }

  /** Name ownership as the source's first loop finds it. */
  method FindByName(reg: Registry, name: string) returns (id: int)
    requires IdsNonzero(reg.managers)
    ensures id == ByName(reg.managers, reg.separator, name)
  {
    for i := 0 to |reg.managers|
      invariant ByName(reg.managers, reg.separator, name) == ByName(reg.managers[i..], reg.separator, name)
    {
      if HasPrefix(name, Pattern(reg.separator, reg.managers[i].slug)) {
        return reg.managers[i].id;
      }
    }
    return 0;
  }

  method FindByComment(reg: Registry, comment: string) returns (id: int)
    requires IdsNonzero(reg.managers)
    ensures id == ByComment(reg.managers, comment)
  {
    for i := 0 to |reg.managers|
      invariant ByComment(reg.managers, comment) == ByComment(reg.managers[i..], comment)
    {
      var matches := CommentMatchesPanel(comment, reg.managers[i].slug);
      if matches {
        return reg.managers[i].id;
      }
    }
    return 0;
  }

  method ResolveOwner(reg: Registry, name: string, comment: string) returns (id: int)
    requires IdsNonzero(reg.managers)
    ensures id == Resolve(reg, name, comment)
  {
    id := FindByName(reg, name);
    if id == 0 {
      id := FindByComment(reg, comment);
    }
  }

  /** Name and comment both name an owner, and they disagree. */
  ghost predicate Mismatch(reg: Registry, name: string, comment: string, resolved: int) {
    var n, c := ByName(reg.managers, reg.separator, name), ByComment(reg.managers, comment);
    resolved != 0 && n != 0 && c != 0 && n != c
  }

  method OwnerMismatch(reg: Registry, name: string, comment: string, resolved: int) returns (mismatch: bool)
    requires IdsNonzero(reg.managers)
    ensures mismatch <==> Mismatch(reg, name, comment, resolved)
  {
    if resolved == 0 {
      return false;
    }
    var nameID := FindByName(reg, name);
    var commentID := FindByComment(reg, comment);
    if nameID == 0 || commentID == 0 {
      return false;
    }
    return nameID != commentID;
  }

  // ---------------------------------------------------------------- comment tokens

  /** t occurs in s at offset i, bounded on both sides by an end of s or a bar. */
  predicate TokenAt(s: string, t: string, i: int) {
    && At(s, t, i)
    && (i == 0 || s[i - 1] == '|')
    && (i + |t| == |s| || s[i + |t|] == '|')
  }

  ghost predicate HasToken(s: string, t: string) {
    exists i :: TokenAt(s, t, i)
  }

  /** The four tests together find a bounded occurrence, whatever characters the slug has. */
  lemma MatchIsBoundedOccurrence(comment: string, slug: string)
    ensures CommentMatches(comment, slug) <==> HasToken(comment, PanelComment(slug))
  {
    var t := PanelComment(slug);
    if HasToken(comment, t) {
      var i :| TokenAt(comment, t, i);
      TokenPassesATest(comment, t, i);
    }
    if CommentMatches(comment, slug) {
      TestFindsToken(comment, t);
    }
  }

  ghost predicate SomeTest(s: string, t: string) {
    s == t || HasPrefix(s, t + "|") || HasSuffix(s, "|" + t) || Contains(s, "|" + t + "|")
  }

  lemma TokenPassesATest(s: string, t: string, i: int)
    requires TokenAt(s, t, i)
    ensures SomeTest(s, t)
  {
    if i > 0 && i + |t| < |s| {
      assert s[i - 1..i + |t| + 1] == "|" + t + "|";
      assert At(s, "|" + t + "|", i - 1);
    } else if i > 0 {
      assert s[i - 1..] == "|" + t;
    } else if |t| < |s| {
      assert s[..|t| + 1] == t + "|";
    } else {
      assert s == t;
    }
  }

  lemma TestFindsToken(s: string, t: string)
    requires SomeTest(s, t)
    ensures HasToken(s, t)
  {
    if s == t {
      assert TokenAt(s, t, 0);
    } else if HasPrefix(s, t + "|") {
      assert s[..|t| + 1] == t + "|";
      assert s[..|t|] == s[..|t| + 1][..|t|] == t;
      assert s[|t|] == s[..|t| + 1][|t|];
      assert TokenAt(s, t, 0);
    } else if HasSuffix(s, "|" + t) {
      var k := |s| - |t|;
      assert s[k..] == s[k - 1..][1..] == t;
      assert s[k - 1] == s[k - 1..][0];
      assert TokenAt(s, t, k);
    } else {
      var w := "|" + t + "|";
      var i :| At(s, w, i);
      SliceOfSlice(s, i, i + |w|, 1, 1 + |t|);
      assert w[1..1 + |t|] == t;
      assert s[i] == s[i..i + |w|][0] && s[i + 1 + |t|] == s[i..i + |w|][1 + |t|];
      assert TokenAt(s, t, i + 1);
    }
  }

  lemma {:induction false} ElementIsToken(s: string, t: string)
    requires t in Split(s, '|')
    ensures HasToken(s, t)
    ensures t == Split(s, '|')[0] ==> TokenAt(s, t, 0)
  {
    if s == "" {
      assert TokenAt(s, t, 0);
    } else {
      var rest := Split(s[1..], '|');
      if s[0] == '|' {
        if t == "" {
          assert TokenAt(s, t, 0);
        } else {
          ElementIsToken(s[1..], t);
          var i :| TokenAt(s[1..], t, i);
          TokenShifts(s, t, i);
        }
      } else if t == [s[0]] + rest[0] {
        ElementIsToken(s[1..], rest[0]);
        assert s[..|t|] == [s[0]] + s[1..][..|t| - 1] == t;
        assert TokenAt(s, t, 0);
      } else {
        var k :| 1 <= k < |rest| && rest[k] == t;
        LaterElementIsLaterToken(s[1..], t, k);
        var i :| i > 0 && TokenAt(s[1..], t, i);
        TokenShifts(s, t, i);
      }
    }
  }

  lemma TokenShifts(s: string, t: string, i: int)
    requires s != "" && TokenAt(s[1..], t, i)
    requires i > 0 || s[0] == '|'
    ensures TokenAt(s, t, i + 1)
  {
    assert s[i + 1..i + 1 + |t|] == s[1..][i..i + |t|];
  }

  lemma {:induction false} LaterElementIsLaterToken(s: string, t: string, k: int)
    requires 1 <= k < |Split(s, '|')| && Split(s, '|')[k] == t
    ensures exists i :: i > 0 && TokenAt(s, t, i)
  {
    var rest := Split(s[1..], '|');
    if s[0] == '|' && k == 1 {
      ElementIsToken(s[1..], t);
      assert rest[0] == t;
      TokenShifts(s, t, 0);
    } else {
      LaterElementIsLaterToken(s[1..], t, if s[0] == '|' then k - 1 else k);
      var i :| i > 0 && TokenAt(s[1..], t, i);
      TokenShifts(s, t, i);
    }
  }

  lemma FirstTokenIsElement(s: string, t: string)
    requires '|' !in t && TokenAt(s, t, 0)
    ensures t == Split(s, '|')[0]
  {
    if |t| == |s| {
      assert t == s;
      SplitWhole(t, '|');
    } else {
      SplitAfter(t, s[|t| + 1..], '|');
      assert s == t + ['|'] + s[|t| + 1..];
    }
  }

  lemma {:induction false} TokenIsElement(s: string, t: string, i: int)
    requires '|' !in t && TokenAt(s, t, i)
    ensures t in Split(s, '|')
    ensures i == 0 ==> t == Split(s, '|')[0]
  {
    if i == 0 {
      FirstTokenIsElement(s, t);
    } else {
      var rest := Split(s[1..], '|');
      assert At(s[1..], t, i - 1) by {
        assert s[1..][i - 1..i - 1 + |t|] == s[i..i + |t|];
      }
      TokenIsElement(s[1..], t, i - 1);
      var k :| 0 <= k < |rest| && rest[k] == t;
      if s[0] == '|' {
        assert Split(s, '|')[k + 1] == t;
      } else {
        assert i > 1;
        LaterTokenIsLaterElement(s[1..], t, i - 1);
        var j :| 1 <= j < |rest| && rest[j] == t;
        assert Split(s, '|')[j] == t;
      }
    }
  }

  lemma {:induction false} LaterTokenIsLaterElement(s: string, t: string, i: int)
    requires '|' !in t && i > 0 && TokenAt(s, t, i)
    ensures exists k :: 1 <= k < |Split(s, '|')| && Split(s, '|')[k] == t
  {
    var rest := Split(s[1..], '|');
    assert s[1..][i - 1..i - 1 + |t|] == s[i..i + |t|];
    if s[0] == '|' {
      TokenIsElement(s[1..], t, i - 1);
      var k :| 0 <= k < |rest| && rest[k] == t;
      assert Split(s, '|')[k + 1] == t;
    } else {
      LaterTokenIsLaterElement(s[1..], t, i - 1);
      var k :| 1 <= k < |rest| && rest[k] == t;
      assert Split(s, '|')[k] == t;
    }
  }

  /**
   * The matcher is exactly "panel=slug is an element of the comment split at bars", for every comment,
   * if and only if the slug has no bar. Nothing in the panel checks that.
   */
  lemma MatcherIsElementTest(slug: string)
    ensures (forall comment :: CommentMatches(comment, slug) <==> PanelComment(slug) in Split(comment, '|'))
       <==> '|' !in slug
  {
    var t := PanelComment(slug);
    if '|' !in slug {
      forall comment
        ensures CommentMatches(comment, slug) <==> t in Split(comment, '|')
      {
        MatchIsBoundedOccurrence(comment, slug);
        if t in Split(comment, '|') {
          ElementIsToken(comment, t);
        }
        if HasToken(comment, t) {
          var i :| TokenAt(comment, t, i);
          TokenIsElement(comment, t, i);
        }
      }
    } else {
      SplitIsFree(t, '|');
      assert CommentMatches(t, slug) && t !in Split(t, '|') by {
        var k :| 0 <= k < |slug| && slug[k] == '|';
        assert t[k + 6] == '|';
      }
    }
  }

  // ---------------------------------------------------------------- prefix-free slugs

  predicate Comparable(a: string, b: string) {
    HasPrefix(a, b) || HasPrefix(b, a)
  }

  predicate SlugOverlaps(slug: string, existing: seq<ManagerInfo>, excludeID: int) {
    exists e :: e in existing && !(excludeID > 0 && e.id == excludeID) &&
                (slug == e.slug || HasPrefix(slug, e.slug) || HasPrefix(e.slug, slug))
  }

  ghost predicate PrefixFree(ms: seq<ManagerInfo>) {
    forall i, j :: 0 <= i < j < |ms| ==> !Comparable(ms[i].slug, ms[j].slug)
  }

  ghost predicate IdsDistinct(ms: seq<ManagerInfo>) {
    forall i, j :: 0 <= i < j < |ms| ==> ms[i].id != ms[j].id
  }

  lemma ComparableSymmetric(a: string, b: string)
    requires Comparable(a, b)
    ensures Comparable(b, a)
  {
  }

  /** The overlap check is exactly what keeps an appended slug list prefix-free. */
  lemma OverlapCheckKeepsPrefixFree(ms: seq<ManagerInfo>, m: ManagerInfo)
    requires PrefixFree(ms)
    ensures PrefixFree(ms + [m]) <==> !SlugOverlaps(m.slug, ms, 0)
  {
    var all := ms + [m];
    if SlugOverlaps(m.slug, ms, 0) {
      var e :| e in ms && Comparable(m.slug, e.slug);
      var i :| 0 <= i < |ms| && ms[i] == e;
      assert all[i] == e && all[|ms|] == m;
      ComparableSymmetric(m.slug, e.slug);
    } else {
      forall i, j | 0 <= i < j < |all|
        ensures !Comparable(all[i].slug, all[j].slug)
      {
        assert all[i] == ms[i] && ms[i] in ms;
      }
    }
  }

  /** At most one manager's pattern matches any name. */
  lemma PatternsExclusive(ms: seq<ManagerInfo>, separator: string, name: string, i: int, j: int)
    requires PrefixFree(ms) && 0 <= i < |ms| && 0 <= j < |ms|
    requires HasPrefix(name, Pattern(separator, ms[i].slug)) && HasPrefix(name, Pattern(separator, ms[j].slug))
    ensures i == j
  {
    var a, b := ms[i].slug, ms[j].slug;
    assert a <= name && b <= name by {
      assert name[..|a|] == Pattern(separator, a)[..|a|];
      assert name[..|b|] == Pattern(separator, b)[..|b|];
    }
    assert Comparable(a, b);
  }

  lemma {:induction false} ByNameFirst(ms: seq<ManagerInfo>, separator: string, name: string, j: int)
    requires IdsNonzero(ms) && 0 <= j < |ms| && HasPrefix(name, Pattern(separator, ms[j].slug))
    requires forall i :: 0 <= i < j ==> !HasPrefix(name, Pattern(separator, ms[i].slug))
    ensures ByName(ms, separator, name) == ms[j].id
  {
    if j > 0 {
      ByNameFirst(ms[1..], separator, name, j - 1);
    }
  }

  /** Reading ByName back: either nobody matches, or the result is the first match. */
  lemma {:induction false} ByNameFound(ms: seq<ManagerInfo>, separator: string, name: string) returns (j: int)
    requires IdsNonzero(ms)
    ensures 0 <= j <= |ms|
    ensures forall i :: 0 <= i < j ==> !HasPrefix(name, Pattern(separator, ms[i].slug))
    ensures j < |ms| ==> HasPrefix(name, Pattern(separator, ms[j].slug)) && ByName(ms, separator, name) == ms[j].id
    ensures j == |ms| <==> ByName(ms, separator, name) == 0
  {
    if ms == [] {
      j := 0;
    } else if HasPrefix(name, Pattern(separator, ms[0].slug)) {
      j := 0;
    } else {
      j := ByNameFound(ms[1..], separator, name);
      j := j + 1;
    }
  }

  lemma {:induction false} ByCommentFirst(ms: seq<ManagerInfo>, comment: string, j: int)
    requires IdsNonzero(ms) && 0 <= j < |ms| && CommentMatches(comment, ms[j].slug)
    requires forall i :: 0 <= i < j ==> !CommentMatches(comment, ms[i].slug)
    ensures ByComment(ms, comment) == ms[j].id
  {
    if j > 0 {
      ByCommentFirst(ms[1..], comment, j - 1);
    }
  }

  lemma {:induction false} ByCommentFound(ms: seq<ManagerInfo>, comment: string) returns (j: int)
    requires IdsNonzero(ms)
    ensures 0 <= j <= |ms|
    ensures forall i :: 0 <= i < j ==> !CommentMatches(comment, ms[i].slug)
    ensures j < |ms| ==> CommentMatches(comment, ms[j].slug) && ByComment(ms, comment) == ms[j].id
    ensures j == |ms| <==> ByComment(ms, comment) == 0
  {
    if ms == [] {
      j := 0;
    } else if CommentMatches(comment, ms[0].slug) {
      j := 0;
    } else {
      j := ByCommentFound(ms[1..], comment);
      j := j + 1;
    }
  }

  /** With prefix-free slugs, name ownership is a plain prefix test; nothing depends on the order of managers. */
  lemma ByNameIsPrefixTest(ms: seq<ManagerInfo>, separator: string, name: string, j: int)
    requires PrefixFree(ms) && IdsNonzero(ms) && IdsDistinct(ms) && 0 <= j < |ms|
    ensures ByName(ms, separator, name) == ms[j].id <==> HasPrefix(name, Pattern(separator, ms[j].slug))
  {
    var k := ByNameFound(ms, separator, name);
    if HasPrefix(name, Pattern(separator, ms[j].slug)) {
      PatternsExclusive(ms, separator, name, j, k);
    }
  }

  /** At most one manager's token is in the comment. */
  ghost predicate OneClaim(ms: seq<ManagerInfo>, comment: string) {
    forall i, j :: 0 <= i < |ms| && 0 <= j < |ms| && CommentMatches(comment, ms[i].slug)
      && CommentMatches(comment, ms[j].slug)
      ==> ms[i] == ms[j]
  }

  ghost predicate SameMembers(a: seq<ManagerInfo>, b: seq<ManagerInfo>) {
    forall m :: m in a <==> m in b
  }

  /** Reordering the registry never changes name ownership, nor comment ownership when one token at most is claimed. */
  lemma ResolveIgnoresOrder(a: seq<ManagerInfo>, b: seq<ManagerInfo>, separator: string, name: string, comment: string)
    requires SameMembers(a, b) && PrefixFree(a) && PrefixFree(b) && IdsNonzero(a) && IdsNonzero(b)
    ensures ByName(a, separator, name) == ByName(b, separator, name)
    ensures ByName(a, separator, name) != 0 || OneClaim(a, comment) ==>
              Resolve(Registry(separator, a), name, comment) == Resolve(Registry(separator, b), name, comment)
  {
    var i := ByNameFound(a, separator, name);
    var j := ByNameFound(b, separator, name);
    assert j < |b| ==> i < |a| by {
      if j < |b| {
        assert b[j] in a;
      }
    }
    if i < |a| {
      assert a[i] in b;
      var k :| 0 <= k < |b| && b[k] == a[i];
      PatternsExclusive(b, separator, name, j, k);
    }
    if OneClaim(a, comment) {
      var p := ByCommentFound(a, comment);
      var q := ByCommentFound(b, comment);
      if p < |a| {
        assert a[p] in b;
      }
      if q < |b| {
        assert b[q] in a;
      }
    }
  }

  /** Both list the same managers, once each. */
  ghost predicate Reorders(a: seq<ManagerInfo>, b: seq<ManagerInfo>) {
    SameMembers(a, b) && IdsDistinct(a) && IdsDistinct(b)
  }

  lemma ReorderKeepsPrefixFree(a: seq<ManagerInfo>, b: seq<ManagerInfo>)
    requires Reorders(a, b) && PrefixFree(a) && IdsNonzero(a)
    ensures PrefixFree(b) && IdsNonzero(b)
  {
    forall i | 0 <= i < |b|
      ensures b[i].id != 0
    {
      assert b[i] in a;
    }
    forall i, j | 0 <= i < j < |b|
      ensures !Comparable(b[i].slug, b[j].slug)
    {
      assert b[i] in a && b[j] in a;
      var p :| 0 <= p < |a| && a[p] == b[i];
      var q :| 0 <= q < |a| && a[q] == b[j];
    }
  }

  /** The same managers with one moved to the front. */
  function ToFront(ms: seq<ManagerInfo>, q: int): seq<ManagerInfo>
    requires 0 <= q < |ms|
  {
    [ms[q]] + ms[..q] + ms[q + 1..]
  }

  lemma ToFrontReorders(ms: seq<ManagerInfo>, q: int)
    requires IdsDistinct(ms) && 0 <= q < |ms|
    ensures Reorders(ms, ToFront(ms, q))
  {
    var b := ToFront(ms, q);
    assert forall k :: 0 <= k < |b| ==> b[k] == ms[if k == 0 then q else if k <= q then k - 1 else k];
    forall m
      ensures m in ms <==> m in b
    {
      if m in ms {
        var i :| 0 <= i < |ms| && ms[i] == m;
        assert b[if i == q then 0 else if i < q then i + 1 else i] == m;
      }
    }
  }

  /**
   * Ownership is the same under every reordering of the registry exactly when the name decides, or the comment
   * carries one manager's token at most.
   */
  lemma OrderMattersExactly(ms: seq<ManagerInfo>, separator: string, name: string, comment: string)
    requires PrefixFree(ms) && IdsNonzero(ms) && IdsDistinct(ms)
    ensures (forall b :: Reorders(ms, b) ==>
               Resolve(Registry(separator, b), name, comment) == Resolve(Registry(separator, ms), name, comment))
       <==> ByName(ms, separator, name) != 0 || OneClaim(ms, comment)
  {
    if ByName(ms, separator, name) != 0 || OneClaim(ms, comment) {
      forall b | Reorders(ms, b)
        ensures Resolve(Registry(separator, b), name, comment) == Resolve(Registry(separator, ms), name, comment)
      {
        ReorderKeepsPrefixFree(ms, b);
        ResolveIgnoresOrder(ms, b, separator, name, comment);
      }
    } else {
      var q := SecondClaim(ms, comment);
      var b := ToFront(ms, q);
      ToFrontReorders(ms, q);
      ReorderKeepsPrefixFree(ms, b);
      ResolveIgnoresOrder(ms, b, separator, name, comment);
      ByCommentFirst(b, comment, 0);
      assert Reorders(ms, b) && Resolve(Registry(separator, b), name, comment) == ms[q].id;
    }
  }

  /** A claim other than the one that decides. */
  lemma SecondClaim(ms: seq<ManagerInfo>, comment: string) returns (q: int)
    requires IdsNonzero(ms) && IdsDistinct(ms) && !OneClaim(ms, comment)
    ensures 0 <= q < |ms| && CommentMatches(comment, ms[q].slug) && ms[q].id != ByComment(ms, comment)
  {
    var i, j :| 0 <= i < |ms| && 0 <= j < |ms| && CommentMatches(comment, ms[i].slug)
                && CommentMatches(comment, ms[j].slug) && ms[i] != ms[j];
    q := if ms[i].id != ByComment(ms, comment) then i else j;
  }

  /** With two claims in one comment the order does decide. */
  lemma CommentOrderMatters()
    ensures var ali, bob := ManagerInfo(1, "ali"), ManagerInfo(2, "bob");
            var comment := "panel=ali|panel=bob";
            && PrefixFree([ali, bob])
            && Resolve(Registry("-", [ali, bob]), "reza", comment) == 1
            && Resolve(Registry("-", [bob, ali]), "reza", comment) == 2
  {
    var ali, bob := ManagerInfo(1, "ali"), ManagerInfo(2, "bob");
    var comment := "panel=ali|panel=bob";
    assert HasPrefix(comment, PanelComment("ali") + "|") by {
      assert PanelComment("ali") + "|" == "panel=ali|";
    }
    assert HasSuffix(comment, "|" + PanelComment("bob")) by {
      assert "|" + PanelComment("bob") == "|panel=bob" == comment[9..];
    }
    assert !HasPrefix("reza", Pattern("-", "ali")) by { assert Pattern("-", "ali")[0] != "reza"[0]; }
    assert !HasPrefix("reza", Pattern("-", "bob")) by { assert Pattern("-", "bob")[0] != "reza"[0]; }
    ByCommentFirst([ali, bob], comment, 0);
    ByCommentFirst([bob, ali], comment, 0);
    var i := ByNameFound([ali, bob], "-", "reza");
    var j := ByNameFound([bob, ali], "-", "reza");
    assert ManagerInfo(1, "ali").slug[0] != ManagerInfo(2, "bob").slug[0];
  }

  /** The names a manager can create. */
  function CreatedName(separator: string, slug: string, local: string): string {
    Pattern(separator, slug) + local
  }

  /**
   * Every name a manager creates resolves to that manager, if and only if no earlier manager's pattern is
   * comparable with its own. Prefix-free slugs are enough.
   */
  lemma CreatedNamesResolve(ms: seq<ManagerInfo>, separator: string, j: int)
    requires IdsNonzero(ms) && IdsDistinct(ms) && 0 <= j < |ms|
    ensures (forall local :: ByName(ms, separator, CreatedName(separator, ms[j].slug, local)) == ms[j].id)
       <==> (forall i :: 0 <= i < j ==> !Comparable(Pattern(separator, ms[i].slug), Pattern(separator, ms[j].slug)))
    ensures PrefixFree(ms) ==>
              forall local :: ByName(ms, separator, CreatedName(separator, ms[j].slug, local)) == ms[j].id
  {
    var pj := Pattern(separator, ms[j].slug);
    if forall i :: 0 <= i < j ==> !Comparable(Pattern(separator, ms[i].slug), pj) {
      forall local
        ensures ByName(ms, separator, CreatedName(separator, ms[j].slug, local)) == ms[j].id
      {
        var name := CreatedName(separator, ms[j].slug, local);
        forall i | 0 <= i < j
          ensures !HasPrefix(name, Pattern(separator, ms[i].slug))
        {
          PrefixesComparable(name, Pattern(separator, ms[i].slug), pj);
        }
        ByNameFirst(ms, separator, name, j);
      }
    } else {
      var i :| 0 <= i < j && Comparable(Pattern(separator, ms[i].slug), pj);
      var pi := Pattern(separator, ms[i].slug);
      var local := if |pj| <= |pi| then pi[|pj|..] else "";
      var name := CreatedName(separator, ms[j].slug, local);
      assert pi <= name;
      var k := ByNameFound(ms, separator, name);
      assert k <= i;
    }
    if PrefixFree(ms) {
      forall i | 0 <= i < j
        ensures !Comparable(Pattern(separator, ms[i].slug), pj)
      {
        var pi := Pattern(separator, ms[i].slug);
        if Comparable(pi, pj) {
          PatternsExclusive(ms, separator, if |pi| <= |pj| then pj else pi, i, j);
        }
      }
    }
  }

  lemma PrefixesComparable(s: string, a: string, b: string)
    requires HasPrefix(s, b)
    ensures HasPrefix(s, a) ==> Comparable(a, b)
  {
  }

  // ---------------------------------------------------------------- rewriting the comment

  /** Bounded occurrences compose. */
  lemma TokensCompose(s: string, t: string, u: string)
    requires HasToken(s, t) && HasToken(t, u)
    ensures HasToken(s, u)
  {
    var i :| TokenAt(s, t, i);
    var j :| TokenAt(t, u, j);
    TokenInToken(s, t, u, i, j);
  }

  lemma TokenInToken(s: string, t: string, u: string, i: int, j: int)
    requires TokenAt(s, t, i) && TokenAt(t, u, j)
    ensures TokenAt(s, u, i + j)
  {
    assert At(s, u, i + j) by {
      SliceOfSlice(s, i, i + |t|, j, j + |u|);
    }
    assert s[i..i + |t|] == t;
    assert j > 0 ==> s[i + j - 1] == t[j - 1];
    assert j + |u| < |t| ==> s[i + j + |u|] == t[j + |u|];
  }

  /**
   * A patch never changes who owns a user, whatever the slugs are: if an earlier manager claimed the new
   * token, it already claimed every comment that carried it.
   */
  lemma PatchPreservesOwner(reg: Registry, name: string, comment: string, j: int)
    requires IdsNonzero(reg.managers) && IdsDistinct(reg.managers) && 0 <= j < |reg.managers|
    requires Resolve(reg, name, comment) == reg.managers[j].id
    ensures Resolve(reg, name, PanelComment(reg.managers[j].slug)) == reg.managers[j].id
  {
    var ms := reg.managers;
    if ByName(ms, reg.separator, name) == 0 {
      var k := ByCommentFound(ms, comment);
      assert k == j;
      var token := PanelComment(ms[j].slug);
      forall i | 0 <= i < j
        ensures !CommentMatches(token, ms[i].slug)
      {
        if CommentMatches(token, ms[i].slug) {
          MatchIsBoundedOccurrence(token, ms[i].slug);
          MatchIsBoundedOccurrence(comment, ms[j].slug);
          MatchIsBoundedOccurrence(comment, ms[i].slug);
          TokensCompose(comment, token, PanelComment(ms[i].slug));
        }
      }
      ByCommentFirst(ms, token, j);
    }
  }

  /**
   * After a patch, name and comment agree exactly when no earlier manager claims the owner's own token; slugs
   * that are prefix-free and have no bar always meet that.
   */
  lemma PatchClearsMismatch(reg: Registry, name: string, comment: string, j: int)
    requires IdsNonzero(reg.managers) && IdsDistinct(reg.managers) && 0 <= j < |reg.managers|
    requires Resolve(reg, name, comment) == reg.managers[j].id
    ensures var token := PanelComment(reg.managers[j].slug);
            !Mismatch(reg, name, token, reg.managers[j].id) <==>
              ByName(reg.managers, reg.separator, name) == 0 ||
              forall i :: 0 <= i < j ==> !CommentMatches(token, reg.managers[i].slug)
    ensures PrefixFree(reg.managers) && '|' !in reg.managers[j].slug ==>
              !Mismatch(reg, name, PanelComment(reg.managers[j].slug), reg.managers[j].id)
  {
    var ms := reg.managers;
    var token := PanelComment(ms[j].slug);
    var k := ByCommentFound(ms, token);
    assert k <= j;
    if PrefixFree(ms) && '|' !in ms[j].slug {
      forall i | 0 <= i < j
        ensures !CommentMatches(token, ms[i].slug)
      {
        BarFreeTokenMatchesItself(ms[j].slug, ms[i].slug);
        assert !Comparable(ms[i].slug, ms[j].slug);
      }
    }
  }

  /** A token without bars is claimed only by its own slug. */
  lemma BarFreeTokenMatchesItself(slug: string, other: string)
    requires '|' !in slug
    ensures CommentMatches(PanelComment(slug), other) <==> other == slug
  {
    var token, u := PanelComment(slug), PanelComment(other);
    assert forall k :: 0 <= k < |token| ==> token[k] != '|';
    if CommentMatches(token, other) {
      MatchIsBoundedOccurrence(token, other);
      var i :| TokenAt(token, u, i);
      assert i == 0 && |u| == |token|;
      assert other == u[6..] == token[6..] == slug;
    }
  }

  /** With a bar in a slug the promise fails: a name-owned user is still flagged after the panel's own write. */
  lemma BarBreaksPatchedComment()
    ensures var reg := Registry("-", [ManagerInfo(1, "bob"), ManagerInfo(2, "ali|panel=bob")]);
            var name := "ali|panel=bob-x";
            && PrefixFree(reg.managers)
            && Resolve(reg, name, "") == 2
            && Mismatch(reg, name, PanelComment("ali|panel=bob"), 2)
  {
    var bob, bar := ManagerInfo(1, "bob"), ManagerInfo(2, "ali|panel=bob");
    var ms := [bob, bar];
    var name := "ali|panel=bob-x";
    assert bob.slug[0] != bar.slug[0];
    assert Pattern("-", bar.slug) == name[..14];
    assert Pattern("-", bob.slug)[0] != name[0];
    ByNameFirst(ms, "-", name, 1);
    var token := PanelComment(bar.slug);
    assert token[9..] == "|" + PanelComment("bob");
    ByCommentFirst(ms, token, 0);
  }

  /** The first manager whose slug and separator start the name. */
  ghost predicate NamesFirst(reg: Registry, name: string, i: int) {
    && 0 <= i < |reg.managers| && reg.managers[i].slug + reg.separator <= name
    && forall j :: 0 <= j < i ==> !(reg.managers[j].slug + reg.separator <= name)
  }

  /** The first manager whose token the comment carries. */
  ghost predicate ClaimsFirst(reg: Registry, comment: string, i: int) {
    && 0 <= i < |reg.managers| && CommentMatches(comment, reg.managers[i].slug)
    && forall j :: 0 <= j < i ==> !CommentMatches(comment, reg.managers[j].slug)
  }

  /** A user is flagged exactly when it has an owner, and name and comment point to two different managers. */
  lemma MismatchMeans(reg: Registry, name: string, comment: string, resolved: int)
    requires IdsNonzero(reg.managers)
    ensures Mismatch(reg, name, comment, resolved) <==>
              resolved != 0 &&
              exists i, j :: NamesFirst(reg, name, i) && ClaimsFirst(reg, comment, j) &&
                             reg.managers[i].id != reg.managers[j].id
  {
    var i := ByNameFound(reg.managers, reg.separator, name);
    var j := ByCommentFound(reg.managers, comment);
    assert i < |reg.managers| ==> NamesFirst(reg, name, i);
    assert j < |reg.managers| ==> ClaimsFirst(reg, comment, j);
    forall k
      ensures NamesFirst(reg, name, k) ==> k == i
      ensures ClaimsFirst(reg, comment, k) ==> k == j
    {
    }
  }

  // ---------------------------------------------------------------- building the registry

  function Infos(managers: seq<Manager>): seq<ManagerInfo> {
    seq(|managers|, i requires 0 <= i < |managers| => ManagerInfo(managers[i].id, managers[i].slug))
  }

  method BuildRegistry(managers: seq<Manager>, separator: string) returns (reg: Registry)
    ensures reg == Registry(separator, Infos(managers))
  {
    var ms: seq<ManagerInfo> := [];
    for i := 0 to |managers|
      invariant ms == Infos(managers[..i])
    {
      assert managers[..i + 1][..i] == managers[..i];
      ms := ms + [ManagerInfo(managers[i].id, managers[i].slug)];
    }
    assert managers[..|managers|] == managers;
    reg := Registry(separator, ms);
  }
}

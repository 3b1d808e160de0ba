/** Personalising an OpenVPN profile: one line names the connection, one line names the server. */
module Ovpn {
  import opened Models
  import opened Text

  const NAME_KEY := "setenv FRIENDLY_NAME"
  const REMOTE_KEY := "remote "

  function NameLine(name: string): string {
    "setenv FRIENDLY_NAME \"Sabalan " + name + "\""
  }

  function RemoteLine(server: string): string {
    "remote " + server + " 1194 tcp"
  }

  function Lines(body: string): (lines: seq<string>)
    ensures |lines| >= 1
  {
    Split(body, '\n')
  }

  predicate Matches(line: string, key: string) {
    HasPrefix(TrimSpace(line), key)
  }

  /** The index of the first matching line, or the number of lines. */
  function FirstMatch(lines: seq<string>, key: string): (i: nat)
    ensures i <= |lines|
    ensures i < |lines| ==> Matches(lines[i], key)
    ensures forall k :: 0 <= k < i ==> !Matches(lines[k], key)
  {
    if lines == [] || Matches(lines[0], key) then 0 else 1 + FirstMatch(lines[1..], key)
  }

  /** The lines of a rewritten profile: the first match replaced, or the new line in front. */
  function RewrittenLines(lines: seq<string>, key: string, line: string): seq<string> {
    var i := FirstMatch(lines, key);
    if i < |lines| then lines[i := line] else [line] + lines
  }

  function Rewrite(body: string, key: string, line: string): string {
    Join(RewrittenLines(Lines(body), key, line), '\n')
  }

  // ---------------------------------------------------------------- the loop

  lemma {:induction false} LineIsPiece(s: string, k: nat)
    requires k < |Lines(s)|
    ensures Contains(s, Lines(s)[k])
    ensures k == 0 ==> At(s, Lines(s)[0], 0)
  {
    if s == "" {
      assert At(s, "", 0);
    } else {
      var rest := Split(s[1..], '\n');
      if s[0] == '\n' {
        if k == 0 {
          assert At(s, "", 0);
        } else {
          LineIsPiece(s[1..], k - 1);
          PieceShifts(s, rest[k - 1]);
        }
      } else if k == 0 {
        LineIsPiece(s[1..], 0);
        assert s[..|rest[0]| + 1] == [s[0]] + s[1..][..|rest[0]|];
        assert At(s, [s[0]] + rest[0], 0);
      } else {
        LineIsPiece(s[1..], k);
        PieceShifts(s, rest[k]);
      }
    }
  }

  lemma PieceShifts(s: string, t: string)
    requires s != "" && Contains(s[1..], t)
    ensures Contains(s, t)
  {
    var i :| At(s[1..], t, i);
    assert s[i + 1..i + 1 + |t|] == s[1..][i..i + |t|];
    assert At(s, t, i + 1);
  }

  lemma PieceOfPiece(s: string, t: string, u: string)
    requires Contains(s, t) && Contains(t, u)
    ensures Contains(s, u)
  {
    var i :| At(s, t, i);
    var j :| At(t, u, j);
    SliceOfSlice(s, i, i + |t|, j, j + |u|);
    assert At(s, u, i + j);
  }

  /** A matching line makes the body contain the key, so the code's substring guard never hides a match. */
  lemma MatchIsInBody(body: string, key: string, k: nat)
    requires k < |Lines(body)| && Matches(Lines(body)[k], key)
    ensures Contains(body, key)
  {
    var line := Lines(body)[k];
    LineIsPiece(body, k);
    TrimLeftSuffix(line);
    TrimRightPrefix(TrimLeft(line));
    assert At(line, TrimLeft(line), |line| - |TrimLeft(line)|);
    assert key <= TrimLeft(line);
    assert At(TrimLeft(line), key, 0);
    PieceOfPiece(line, TrimLeft(line), key);
    PieceOfPiece(body, line, key);
  }

  method ReplaceOrPrepend(body: string, key: string, line: string) returns (patched: string)
    ensures patched == Rewrite(body, key, line)
  {
    var mentions := FindSubstring(body, key);
    if mentions {
      var lines := Split(body, '\n');
      for i := 0 to |lines|
        invariant forall k :: 0 <= k < i ==> !Matches(lines[k], key)
      {
        if HasPrefix(TrimSpace(lines[i]), key) {
          assert FirstMatch(lines, key) == i;
          return Join(lines[i := line], '\n');
        }
      }
    }
    JoinOfSplit(body, '\n');
    assert FirstMatch(Lines(body), key) == |Lines(body)| by {
      if FirstMatch(Lines(body), key) < |Lines(body)| {
        MatchIsInBody(body, key, FirstMatch(Lines(body), key));
      }
    }
    assert ([line] + Lines(body))[1..] == Lines(body);
    patched := line + "\n" + body;
  }

  method PatchOvpnFriendlyName(body: string, name: string) returns (patched: string)
    ensures patched == Rewrite(body, NAME_KEY, NameLine(name))
  {
    patched := ReplaceOrPrepend(body, NAME_KEY, NameLine(name));
  }

  method PatchOvpnServerAddress(body: string, server: string) returns (patched: string)
    ensures patched == Rewrite(body, REMOTE_KEY, RemoteLine(server))
  {
    patched := ReplaceOrPrepend(body, REMOTE_KEY, RemoteLine(server));
  }

  function Personalised(body: string, name: string, server: string): string {
    Rewrite(Rewrite(body, NAME_KEY, NameLine(name)), REMOTE_KEY, RemoteLine(server))
  }

  function UserOvpnFileName(name: string): string {
    "open-vpns/config-" + name + ".ovpn"
  }

  /** Reads the certificate's profile and files a personalised copy for the user; None is the missing file. */
  method EnsureUserOvpnFile(files: map<string, string>, name: string, certTitle: string, server: string)
    returns (updated: Option<map<string, string>>)
    ensures var source, target := "open-vpns/config-" + certTitle + ".ovpn", "open-vpns/config-" + name + ".ovpn";
            updated == if source !in files then None
                       else Some(files[target := Personalised(files[source], name, server)])
  {
    var src := UserOvpnFileName(certTitle);
    if src !in files {
      return None;
    }
    var body := PatchOvpnFriendlyName(files[src], name);
    body := PatchOvpnServerAddress(body, server);
    updated := Some(files[UserOvpnFileName(name) := body]);
  }

  // ---------------------------------------------------------------- what the rewriters promise

  /** For a newline-free line the rewritten body has exactly the rewritten lines. */
  lemma RewriteTouchesOneLine(body: string, key: string, line: string)
    requires '\n' !in line
    ensures Lines(Rewrite(body, key, line)) == RewrittenLines(Lines(body), key, line)
  {
    SplitIsFree(body, '\n');
    SplitOfJoin(RewrittenLines(Lines(body), key, line), '\n');
  }

  lemma FirstMatchIs(lines: seq<string>, key: string, i: nat)
    requires i < |lines| && Matches(lines[i], key) && forall k :: 0 <= k < i ==> !Matches(lines[k], key)
    ensures FirstMatch(lines, key) == i
  {
  }

  /** The new line is where the next rewrite looks. */
  lemma RewrittenFirst(lines: seq<string>, key: string, line: string)
    requires |lines| >= 1 && Matches(line, key)
    ensures var out := RewrittenLines(lines, key, line);
            var i := FirstMatch(lines, key);
            FirstMatch(out, key) == (if i < |lines| then i else 0) && out[FirstMatch(out, key)] == line
  {
    var i := FirstMatch(lines, key);
    FirstMatchIs(RewrittenLines(lines, key, line), key, if i < |lines| then i else 0);
  }

  /** Last write wins; with equal lines this is idempotence. */
  lemma LastWriteWins(body: string, key: string, first: string, second: string)
    requires '\n' !in first && Matches(first, key)
    ensures Rewrite(Rewrite(body, key, first), key, second) == Rewrite(body, key, second)
  {
    RewriteTouchesOneLine(body, key, first);
    RewrittenTwice(Lines(body), key, first, second);
  }

  lemma RewrittenTwice(lines: seq<string>, key: string, first: string, second: string)
    requires |lines| >= 1 && Matches(first, key)
    ensures RewrittenLines(RewrittenLines(lines, key, first), key, second) == RewrittenLines(lines, key, second)
  {
    hide Matches;
    RewrittenFirst(lines, key, first);
    var i := FirstMatch(lines, key);
    if i < |lines| {
      assert lines[i := first][i := second] == lines[i := second];
    } else {
      assert ([first] + lines)[0 := second] == [second] + lines;
    }
  }

  lemma {:induction false} TrimRightKeeps(s: string, p: string)
    requires p <= s && p != "" && !IsSpace(p[|p| - 1])
    ensures p <= TrimRight(s)
  {
    if IsSpace(s[|s| - 1]) {
      assert p != s;
      TrimRightKeeps(s[..|s| - 1], p);
    }
  }

  /** A text that starts at a prefix ending in a visible character still has that prefix after trimming. */
  lemma TrimKeeps(s: string, p: string)
    requires p <= s && p != "" && !IsSpace(p[0]) && !IsSpace(p[|p| - 1])
    ensures p <= TrimSpace(s)
  {
    assert TrimLeft(s) == s;
    TrimRightKeeps(s, p);
  }

  lemma OwnLinesMatch(name: string, server: string)
    ensures Matches(NameLine(name), NAME_KEY) && !Matches(NameLine(name), REMOTE_KEY)
    ensures Matches(RemoteLine(server), REMOTE_KEY) && !Matches(RemoteLine(server), NAME_KEY)
  {
    var n, r := NameLine(name), RemoteLine(server);
    assert n[..20] == NAME_KEY;
    TrimKeeps(n, NAME_KEY);
    TrimKeeps(r, r);
    assert r[..7] == REMOTE_KEY;
    TrimKeeps(n, n);
    assert TrimSpace(n)[0] == 's' && TrimSpace(r)[0] == 'r';
  }

  lemma LinesNewlineFree(name: string, server: string)
    requires '\n' !in name && '\n' !in server
    ensures '\n' !in NameLine(name) && '\n' !in RemoteLine(server)
  {
  }

  /** Changing a line that does not match a key, to one that does not, leaves the key's first match alone. */
  lemma OtherMatchKept(lines: seq<string>, key: string, other: string, line: string)
    requires |lines| >= 1 && !Matches(line, key)
    requires FirstMatch(lines, key) < |lines| && !Matches(lines[FirstMatch(lines, key)], other)
    ensures var out := RewrittenLines(lines, other, line);
            FirstMatch(out, key) < |out| && out[FirstMatch(out, key)] == lines[FirstMatch(lines, key)]
  {
    hide Matches;
    var i, j := FirstMatch(lines, key), FirstMatch(lines, other);
    var out := RewrittenLines(lines, other, line);
    FirstMatchIs(out, key, if j < |lines| then i else i + 1);
  }

  /** Of the lines that start with the key, white space aside, this one comes first. */
  ghost predicate FirstOf(lines: seq<string>, key: string, line: string) {
    exists i :: 0 <= i < |lines| && lines[i] == line && key <= TrimSpace(line) &&
                forall j :: 0 <= j < i ==> !(key <= TrimSpace(lines[j]))
  }

  /** After both rewrites, the wanted name line and the wanted remote line are the first of their kind. */
  lemma PersonalisedLines(body: string, name: string, server: string)
    requires '\n' !in name && '\n' !in server
    ensures var lines := Lines(Personalised(body, name, server));
            && FirstOf(lines, "setenv FRIENDLY_NAME", "setenv FRIENDLY_NAME \"Sabalan " + name + "\"")
            && FirstOf(lines, "remote ", "remote " + server + " 1194 tcp")
  {
    PersonalisedMatches(body, name, server);
    var lines := Lines(Personalised(body, name, server));
    var i, j := FirstMatch(lines, NAME_KEY), FirstMatch(lines, REMOTE_KEY);
    assert Matches(lines[i], NAME_KEY) && Matches(lines[j], REMOTE_KEY);
  }

  lemma PersonalisedMatches(body: string, name: string, server: string)
    requires '\n' !in name && '\n' !in server
    ensures var lines := Lines(Personalised(body, name, server));
            && FirstMatch(lines, NAME_KEY) < |lines| && lines[FirstMatch(lines, NAME_KEY)] == NameLine(name)
            && FirstMatch(lines, REMOTE_KEY) < |lines| && lines[FirstMatch(lines, REMOTE_KEY)] == RemoteLine(server)
  {
    OwnLinesMatch(name, server);
    LinesNewlineFree(name, server);
    var named := Rewrite(body, NAME_KEY, NameLine(name));
    RewriteTouchesOneLine(body, NAME_KEY, NameLine(name));
    RewrittenFirst(Lines(body), NAME_KEY, NameLine(name));
    RewriteTouchesOneLine(named, REMOTE_KEY, RemoteLine(server));
    RewrittenFirst(Lines(named), REMOTE_KEY, RemoteLine(server));
    OtherMatchKept(Lines(named), NAME_KEY, REMOTE_KEY, RemoteLine(server));
  }

  lemma RewriteFixed(body: string, key: string, line: string)
    requires FirstMatch(Lines(body), key) < |Lines(body)| && Lines(body)[FirstMatch(Lines(body), key)] == line
    ensures Rewrite(body, key, line) == body
  {
    JoinOfSplit(body, '\n');
    assert RewrittenLines(Lines(body), key, line) == Lines(body);
  }

  /** Personalising a personalised profile changes nothing. */
  lemma PersonalisedFixed(body: string, name: string, server: string)
    requires '\n' !in name && '\n' !in server
    ensures Personalised(Personalised(body, name, server), name, server) == Personalised(body, name, server)
  {
    PersonalisedMatches(body, name, server);
    RewriteFixed(Personalised(body, name, server), NAME_KEY, NameLine(name));
    RewriteFixed(Personalised(body, name, server), REMOTE_KEY, RemoteLine(server));
  }

  lemma FirstNewline(s: string) returns (k: nat)
    requires '\n' in s
    ensures k < |s| && s[k] == '\n' && '\n' !in s[..k]
  {
    k := 0;
    while s[k] != '\n'
      invariant k < |s| && '\n' !in s[..k] && '\n' in s[k..]
      decreases |s| - k
    {
      assert s[..k + 1] == s[..k] + [s[k]];
      assert s[k..] == [s[k]] + s[k + 1..];
      k := k + 1;
    }
  }

  /**
   * Renaming is idempotent on every profile exactly for names without a newline; nothing checks orphan names for one.
   */
  lemma RenamingIdempotent(name: string)
    ensures (forall body :: Rewrite(Rewrite(body, NAME_KEY, NameLine(name)), NAME_KEY, NameLine(name))
                         == Rewrite(body, NAME_KEY, NameLine(name))) <==> '\n' !in name
  {
    OwnLinesMatch(name, "");
    if '\n' !in name {
      LinesNewlineFree(name, "");
      forall body
        ensures Rewrite(Rewrite(body, NAME_KEY, NameLine(name)), NAME_KEY, NameLine(name)) ==
                  Rewrite(body, NAME_KEY, NameLine(name))
      {
        LastWriteWins(body, NAME_KEY, NameLine(name), NameLine(name));
      }
    } else {
      NewlineGrows(name);
    }
  }

  lemma RewriteEmpty(key: string, line: string)
    requires key != ""
    ensures Rewrite("", key, line) == line + ['\n']
  {
    var parts := [line] + [""];
    assert Lines("") == [""] && TrimSpace("") == "" && !Matches("", key);
    assert FirstMatch([""], key) == 1;
    assert RewrittenLines([""], key, line) == parts;
    assert parts[1..] == [""];
    assert Join(parts, '\n') == line + ['\n'] + Join([""], '\n');
  }

  lemma CutAtNewline(line: string, k: nat)
    requires k < |line| && line[k] == '\n'
    ensures line + ['\n'] == line[..k] + ['\n'] + (line[k + 1..] + ['\n'])
  {
  }

  /** A body whose first piece matches has that piece replaced. */
  lemma RewriteHead(head: string, tail: string, key: string, line: string)
    requires '\n' !in head && Matches(head, key)
    ensures Rewrite(head + ['\n'] + tail, key, line) == line + ['\n'] + tail
  {
    var rest := Split(tail, '\n');
    SplitAfter(head, tail, '\n');
    FirstMatchIs([head] + rest, key, 0);
    assert ([head] + rest)[0 := line] == [line] + rest;
    assert ([line] + rest)[1..] == rest;
    JoinOfSplit(tail, '\n');
  }

  lemma NewlineGrows(name: string)
    requires '\n' in name
    ensures var once := Rewrite("", NAME_KEY, NameLine(name));
            Rewrite(once, NAME_KEY, NameLine(name)) != once
  {
    var line := NameLine(name);
    var j :| 0 <= j < |name| && name[j] == '\n';
    assert line[j + 30] == '\n';
    var k := FirstNewline(line);
    var head, tail := line[..k], line[k + 1..] + ['\n'];
    HeadMatches(name, k);
    RewriteEmpty(NAME_KEY, line);
    CutAtNewline(line, k);
    RewriteHead(head, tail, NAME_KEY, line);
    assert |line + ['\n'] + tail| > |head + ['\n'] + tail|;
  }

  lemma HeadMatches(name: string, k: nat)
    requires k < |NameLine(name)| && NameLine(name)[k] == '\n'
    ensures Matches(NameLine(name)[..k], NAME_KEY)
  {
    var line := NameLine(name);
    assert forall i :: 0 <= i < 30 ==> line[i] == "setenv FRIENDLY_NAME \"Sabalan "[i];
    assert line[..k][..20] == NAME_KEY;
    TrimKeeps(line[..k], NAME_KEY);
  }
}

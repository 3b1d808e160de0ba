/** The panel database's rows. */
module Models {

  datatype Option<+T> = None | Some(value: T)

  /** A login with a slug that prefixes its users' names, and a cap on concurrent connections. */
  datatype Manager = Manager(id: int, username: string, slug: string, quota: int)

  /** What the panel knows about one router user. */
  datatype Meta = Meta(id: int, name: string, managerID: Option<int>, contact: Option<string>, notes: Option<string>)

  /** One profile assignment in the billing ledger. Instants are seconds. */
  datatype Activation = Activation(
    id: int, metaID: int, profile: string, sharedUsers: int, settled: bool,
    settledAt: Option<int>, settledBy: Option<int>, endTime: Option<int>, createdAt: int)
}

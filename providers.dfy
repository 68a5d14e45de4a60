/**
 * The two external providers as the server sees them. The identity provider
 * is an oracle: each of its calls is a total function saying how that call
 * ends for given arguments. The object store's contents are the `Bucket`
 * class (storage.dfy); whether one of its calls throws is an oracle too.
 */
module Providers {
  import opened Wrappers

  /**
   * The identity provider's answers. `getUser` is true when the lookup by uid
   * resolves with a record; `getUserByEmail` gives the uid, or None when the
   * lookup throws; the other calls give None/false when they throw.
   */
  datatype Identity = Identity(
    getUser: string -> bool,
    getUserByEmail: string -> Option<string>,
    createUser: (string, string) -> Option<string>,
    updateUser: (string, string) -> bool,
    deleteUser: string -> bool,
    verifyIdToken: string -> Option<string>)

  /** Whether a listing, a prefix deletion or an upload against the store throws. */
  datatype StoreFaults = StoreFaults(listFails: bool, deleteFails: bool, uploadFails: bool)

  const NoFaults := StoreFaults(false, false, false)

  /** The provider calls a request makes, in the order it makes them. */
  datatype Call =
    | GetUser(uid: string)
    | GetUserByEmail(email: string)
    | CreateUser(email: string, password: string)
    | UpdateUser(uid: string, password: string)
    | DeleteUser(uid: string)
    | DeleteFiles(prefix: string)
    | UploadObject(key: string)

  /** A response: status 200 with its payload, or an error status. */
  datatype Reply<+T> = Success(data: T) | Failure(code: int)

  /** A response together with the provider calls made to produce it. */
  datatype Traced<+T> = Traced(reply: Reply<T>, calls: seq<Call>)
}

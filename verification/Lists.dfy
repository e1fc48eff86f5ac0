/** Lists that are changed at one place. */
module Lists {

  function InsertAt<T>(xs: seq<T>, at: nat, x: T): seq<T>
    requires at <= |xs|
  {
    xs[..at] + [x] + xs[at..]
  }

  function RemoveAt<T>(xs: seq<T>, at: nat): seq<T>
    requires at < |xs|
  {
    xs[..at] + xs[at + 1..]
  }
}

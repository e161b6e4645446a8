/** Notions that several parts of the model share. */
module Basics {
  datatype Option<T> = None | Some(value: T)

  type Byte = b: int | 0 <= b < 256

  lemma Associate<T>(x: seq<T>, y: seq<T>, z: seq<T>)
    ensures x + y + z == x + (y + z)
  {
  }

  /** A finite set of identifiers leaves one unused. */
  lemma Unused(ids: set<nat>) returns (id: nat)
    ensures id !in ids
  {
    var rest := ids;
    id := 0;
    while rest != {}
      invariant rest <= ids
      invariant forall d :: d in ids && d !in rest ==> d < id
      decreases rest
    {
      var d :| d in rest;
      rest := rest - {d};
      if id <= d {
        id := d + 1;
      }
    }
  }
}

/** What the cache's tables are indexed by. */
module CacheKeys {
  type Name = string

  datatype Kind = DesignKind | ArchiveKind

  datatype Key = Key(kind: Kind, name: Name)
}

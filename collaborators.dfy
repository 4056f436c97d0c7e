/** The code the lock file calls but does not define: flake reference parsing and
    printing (`parseFlakeRef`, `FlakeRef::isImmutable`, `FlakeRef::to_string`), hash
    parsing and SRI printing (`Hash(string)`, `Hash::to_string(SRI)`) and the store's
    fixed-output path computation (`makeFixedOutputPath`, `printStorePath`).
    Their values are opaque types; the functions are the fields of an `Env` handed to
    every operation, and what the lock file relies on about them is spelled out as
    predicates that lemmas require. A parse that throws is `None`. */
module Collaborators {
  import opened Wrappers

  /** A parsed flake reference. */
  type FlakeRef(==, !new)

  /** A content hash. */
  type Hash(==, !new)

  /** A store path before it is printed. */
  type StorePath(==, !new)

  datatype Env = Env(
    parseFlakeRef: string -> Option<FlakeRef>,
    refToString: FlakeRef -> string,
    isImmutable: FlakeRef -> bool,
    parseHash: string -> Option<Hash>,
    hashToSRI: Hash -> string,
    makeFixedOutputPath: (bool, Hash, string) -> StorePath,
    printStorePath: StorePath -> string)

  /** Printing a flake reference and parsing it back gives the same reference. */
  ghost predicate RefsRoundTrip(env: Env)
  {
    forall r: FlakeRef :: env.parseFlakeRef(env.refToString(r)) == Some(r)
  }

  /** Printing a hash in SRI form and parsing it back gives the same hash. */
  ghost predicate HashesRoundTrip(env: Env)
  {
    forall h: Hash :: env.parseHash(env.hashToSRI(h)) == Some(h)
  }

  /** Distinct hashes give distinct fixed-output paths, and distinct paths print
      differently (what content addressing is for). */
  ghost predicate StoreInjective(env: Env)
  {
    && (forall h1: Hash, h2: Hash :: env.makeFixedOutputPath(true, h1, "source") == env.makeFixedOutputPath(true, h2, "source") ==> h1 == h2)
    && (forall p1: StorePath, p2: StorePath :: env.printStorePath(p1) == env.printStorePath(p2) ==> p1 == p2)
  }
}

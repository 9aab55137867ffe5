/** The two operations a lease coordinator needs from the names it hands out. */
module KeySpaces {
  import opened Wrappers

  datatype KeySpace = KeySpace(
    normalize: string -> Result<string, string>,
    covers: (string, string) -> bool)
  {
    /**
      What exclusion rests on: a key covers itself, and any two keys that cover a
      third one are comparable. Transitivity is not needed.
     */
    ghost predicate Lawful() {
      && (forall k: string :: covers(k, k))
      && (forall p: string, q: string, k: string :: covers(p, k) && covers(q, k) ==> covers(p, q) || covers(q, p))
    }
  }
}

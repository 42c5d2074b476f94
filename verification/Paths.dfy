/** Paths inside an image: components with a separator between any two. */
module Paths {
  function Slashed<T>(path: seq<seq<T>>, slash: T): seq<T> {
    if path == [] then [] else
      if |path| == 1 then path[0] else Slashed(path[..|path| - 1], slash) + [slash] + path[|path| - 1]
  }

  /** A non-empty component is appended behind a separator, or stands alone. */
  lemma SlashedNext<T>(path: seq<seq<T>>, name: seq<T>, slash: T)
    requires forall i | 0 <= i < |path| :: path[i] != []
    ensures Slashed(path + [name], slash) == if Slashed(path, slash) == [] then name else Slashed(path, slash) + [slash] + name
  {
    assert (path + [name])[..|path|] == path;
  }
}

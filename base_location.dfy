/** `useBaseLocation`: the router sees locations without the deployment's
    base path (`import.meta.env.BASE_URL`, the `base` argument here), and
    navigation puts the base back in front. */
module BaseLocation {
  import opened Sequences

  /** `stripBase(path)`: the rest of the path after the base, "/" when nothing
      is left, and the path itself when it does not start with the base. */
  function StripBase(base: string, path: string): (r: string)
    ensures !StartsWith(path, base) ==> r == path
    ensures StartsWith(path, base) ==> r != ""
    ensures StartsWith(path, base) && |path| == |base| ==> r == "/"
    ensures StartsWith(path, base) && |path| > |base| ==> base + r == path
  {
    if StartsWith(path, base) then
      var rest := path[|base|..];
      assert path == base + rest;
      if rest == "" then "/" else rest
    else path
  }

  /** The setter handed to the router: `(to) => setLocation(base + to)`. */
  function Prefixed(base: string, to: string): (location: string)
    ensures StartsWith(location, base) && location[|base|..] == to
    ensures |location| == |base| + |to|
  {
    assert (base + to)[..|base|] == base && (base + to)[|base|..] == to;
    base + to
  }

  /** Navigating to `to` and reading the location back gives `to`, or "/"
      for an empty target. */
  lemma StripPrefixedRoundTrip(base: string, to: string)
    ensures StripBase(base, Prefixed(base, to)) == if to == "" then "/" else to
  {
    assert (base + to)[|base|..] == to;
  }

  /** A location under the base, other than the base itself, is reached again
      by navigating to its stripped form. */
  lemma PrefixedStripRoundTrip(base: string, path: string)
    requires StartsWith(path, base) && |path| > |base|
    ensures Prefixed(base, StripBase(base, path)) == path
  {
  }

  /** The base itself reads as "/", and navigating there lands on the base
      followed by "/". */
  lemma BaseReadsAsRoot(base: string)
    ensures StripBase(base, base) == "/"
    ensures Prefixed(base, StripBase(base, base)) == base + "/"
  {
    assert base[..|base|] == base;
  }
}

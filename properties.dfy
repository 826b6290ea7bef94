/**
 * `dup_property_values`: copy a space-separated list of attributes from one
 * entity to another. An entity's attributes are modelled as a map from
 * attribute name to value.
 */
module Properties {

  import opened Wrappers

  /** The position of the first space in `s`, or |s| when there is none. */
  function FirstSpace(s: string): (i: nat)
    ensures i <= |s|
    ensures forall j :: 0 <= j < i ==> s[j] != ' '
    ensures i < |s| ==> s[i] == ' '
  {
    if s == [] || s[0] == ' ' then 0 else 1 + FirstSpace(s[1..])
  }

  /**
   * `s.split(' ')`: the pieces between single spaces, empty pieces kept,
   * so there is always one piece more than there are spaces.
   */
  function Split(s: string): (parts: seq<string>)
    ensures |parts| >= 1
    ensures forall i :: 0 <= i < |parts| ==> ' ' !in parts[i]
    decreases |s|
  {
    var i := FirstSpace(s);
    if i == |s| then [s] else [s[..i]] + Split(s[i + 1..])
  }

  /** The pieces joined back with one space between each two. */
  function Join(parts: seq<string>): string
    requires |parts| >= 1
  {
    if |parts| == 1 then parts[0] else parts[0] + " " + Join(parts[1..])
  }

  /** Splitting loses nothing: joining the pieces gives back the string. */
  lemma {:induction false} JoinSplit(s: string)
    ensures Join(Split(s)) == s
    decreases |s|
  {
    var i := FirstSpace(s);
    if i < |s| {
      var rest := Split(s[i + 1..]);
      SplitAtSpace(s);
      JoinCons(s[..i], rest);
      JoinSplit(s[i + 1..]);
      assert s == s[..i] + " " + s[i + 1..];
    }
  }

  /** At a space, the split is the piece before it followed by the split of the rest. */
  lemma SplitAtSpace(s: string)
    requires FirstSpace(s) < |s|
    ensures Split(s) == [s[..FirstSpace(s)]] + Split(s[FirstSpace(s) + 1..])
  {
  }

  /** Joining a first piece onto further pieces puts one space between. */
  lemma JoinCons(a: string, rest: seq<string>)
    requires |rest| >= 1
    ensures Join([a] + rest) == a + " " + Join(rest)
  {
    assert ([a] + rest)[1..] == rest;
  }

  /**
   * Copies each named attribute of `src` into `dst`, in order. A name that
   * `src` lacks raises (as `getattr` does), after the names before it have
   * been copied; `res` is the destination as left in either case.
   */
  method DupPropertyValues<V>(dst: map<string, V>, src: map<string, V>, props: string)
    returns (res: map<string, V>, ok: bool)
    ensures ok <==> forall p :: p in Split(props) ==> p in src
    ensures ok ==> res.Keys == dst.Keys + set p | p in Split(props)
    ensures ok ==> forall k :: k in res ==> res[k] == if k in Split(props) then src[k] else dst[k]
    ensures !ok ==> exists i: nat ::
      FirstMissing(src, Split(props), i) && res == CopyAll(dst, src, Split(props)[..i])
  {
    var names := Split(props);
    res := dst;
    for i := 0 to |names|
      invariant forall j :: 0 <= j < i ==> names[j] in src
      invariant res == CopyAll(dst, src, names[..i])
    {
      var p := names[i];
      if p !in src {
        ok := false;
        assert FirstMissing(src, names, i);
        return;
      }
      res := res[p := src[p]];
      assert names[..i + 1][..i] == names[..i];
    }
    ok := true;
    assert names[..|names|] == names;
    CopyAllFacts(dst, src, names);
  }

  /** `names[i]` is the first of `names` that `src` lacks. */
  predicate FirstMissing<V>(src: map<string, V>, names: seq<string>, i: nat)
  {
    i < |names| && names[i] !in src && forall j :: 0 <= j < i ==> names[j] in src
  }

  /** The destination after copying every attribute in `names` in turn. */
  function CopyAll<V>(dst: map<string, V>, src: map<string, V>, names: seq<string>): map<string, V>
    requires forall p :: p in names ==> p in src
  {
    if names == [] then dst
    else
      var n := |names|;
      CopyAll(dst, src, names[..n - 1])[names[n - 1] := src[names[n - 1]]]
  }

  lemma {:induction false} CopyAllFacts<V>(dst: map<string, V>, src: map<string, V>, names: seq<string>)
    requires forall p :: p in names ==> p in src
    ensures CopyAll(dst, src, names).Keys == dst.Keys + set p | p in names
    ensures forall k :: k in CopyAll(dst, src, names) ==>
      CopyAll(dst, src, names)[k] == if k in names then src[k] else dst[k]
  {
    if names != [] {
      var n := |names|;
      var front := names[..n - 1];
      assert forall p :: p in front ==> p in names;
      CopyAllFacts(dst, src, front);
      assert forall p :: p in names <==> p in front || p == names[n - 1];
    }
  }
}

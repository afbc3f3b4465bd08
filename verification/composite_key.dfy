/** Composite keys `source+id` and the way the panel takes them apart with
    `indexOf` and `slice` and puts them back together. */
module CompositeKey {

  const Separator: char := '+'

  /** `String.prototype.indexOf` for a single character: the first position
      of `c` in `s`, or -1 when `s` has none. */
  function IndexOf(s: string, c: char): (r: int)
    ensures -1 <= r < |s|
    ensures r == -1 <==> c !in s
    ensures 0 <= r ==> s[r] == c && c !in s[..r]
  {
    if s == [] then -1
    else if s[0] == c then 0
    else
      var k := IndexOf(s[1..], c);
      if k == -1 then -1
      else
        assert s[..k + 1] == [s[0]] + s[1..][..k];
        k + 1
  }

  /** A bound as `String.prototype.slice` reads it: a negative bound counts
      back from the end, and the position is clamped to `[0, len]`. */
  function SliceBound(len: nat, i: int): (b: nat)
    ensures b <= len
    ensures 0 <= i <= len ==> b == i
  {
    if i < 0 then (if len + i < 0 then 0 else len + i)
    else if i > len then len
    else i
  }

  /** `s.slice(start, end)`: empty when the clamped start is not before the
      clamped end. */
  function Slice(s: string, start: int, end: int): (r: string)
  {
    var b, e := SliceBound(|s|, start), SliceBound(|s|, end);
    if b < e then s[b..e] else []
  }

  datatype KeyParts = KeyParts(source: string, id: string)

  /** The split of FavoritesPanel.tsx: `source` is `key.slice(0, plusIndex)`
      and `id` is `key.slice(plusIndex + 1)`. With a separator, the parts are
      what lies before and after the first `+`; without one, `indexOf` gives
      -1, so `source` loses the last character and `id` is the whole key. */
  function SplitKey(key: string): (p: KeyParts)
    ensures Separator in key ==>
      var i := IndexOf(key, Separator);
      && p.source == key[..i]
      && p.id == key[i + 1..]
      && Separator !in p.source
    ensures Separator !in key ==>
      && p.source == (if key == [] then [] else key[..|key| - 1])
      && p.id == key
  {
    var plusIndex := IndexOf(key, Separator);
    KeyParts(Slice(key, 0, plusIndex), Slice(key, plusIndex + 1, |key|))
  }

  /** The template string `${source}+${id}` that rebuilds a key. */
  function JoinKey(source: string, id: string): (key: string)
    ensures Separator in key
  {
    var key := source + [Separator] + id;
    assert key[|source|] == Separator;
    key
  }

  /** Splitting a key and joining the parts gives the key back exactly when
      the key contains a separator. */
  lemma RejoinSplit(key: string)
    ensures JoinKey(SplitKey(key).source, SplitKey(key).id) == key <==> Separator in key
  {
  }

  /** Joining a source and an id and splitting the result gives the same two
      parts back exactly when the source has no separator of its own. */
  lemma SplitJoin(source: string, id: string)
    ensures SplitKey(JoinKey(source, id)) == KeyParts(source, id) <==> Separator !in source
  {
    var key := JoinKey(source, id);
    var i := IndexOf(key, Separator);
    if Separator !in source {
      assert key[..|source|] == source;
      assert key[|source|] == Separator;
      assert i == |source|;
      assert key[i + 1..] == id;
    }
  }

  /** A key without a separator is never rebuilt: what comes back from its
      split always contains a `+`, and is twice as long when the key is
      nonempty. */
  lemma RejoinWithoutSeparator(key: string)
    requires Separator !in key
    ensures var p := SplitKey(key);
      && JoinKey(p.source, p.id) != key
      && |JoinKey(p.source, p.id)| == (if key == [] then 1 else 2 * |key|)
  {
  }
}

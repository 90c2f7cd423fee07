/** Fixed layouts: little-endian fields of given widths packed back to back, read at an offset. */
module Layout {
  import opened Bytes
  import opened Snapshot

  function Total(widths: seq<nat>): nat {
    if widths == [] then 0 else widths[0] + Total(widths[1..])
  }

  predicate Fits(widths: seq<nat>, values: seq<nat>) {
    |widths| == |values| && forall i | 0 <= i < |widths| :: values[i] < Pow256(widths[i])
  }

  function Pack(widths: seq<nat>, values: seq<nat>): (bs: seq<byte>)
    requires |widths| == |values|
    ensures |bs| == Total(widths)
  {
    if widths == [] then [] else ToLE(widths[0], values[0]) + Pack(widths[1..], values[1..])
  }

  function Unpack(widths: seq<nat>, bs: seq<byte>, at: nat): (values: seq<nat>)
    requires at + Total(widths) <= |bs|
    ensures |values| == |widths|
  {
    if widths == [] then [] else [FromLE(bs[at..at + widths[0]])] + Unpack(widths[1..], bs, at + widths[0])
  }

  lemma SliceSplit<T>(s: seq<T>, a: nat, b: nat, c: nat)
    requires a <= b <= c <= |s|
    ensures s[a..c] == s[a..b] + s[b..c]
  {
  }

  lemma ConcatCancel<T>(a: seq<T>, b: seq<T>, c: seq<T>, d: seq<T>)
    requires a + b == c + d && |a| == |c|
    ensures a == c && b == d
  {
    assert a == (a + b)[..|a|] && c == (c + d)[..|c|];
    assert b == (a + b)[|a|..] && d == (c + d)[|c|..];
  }

  /** Reading where values were packed gives the values back. */
  lemma {:induction false} UnpackPack(widths: seq<nat>, values: seq<nat>, bs: seq<byte>, at: nat)
    requires Fits(widths, values) && at + Total(widths) <= |bs|
    requires bs[at..at + Total(widths)] == Pack(widths, values)
    ensures Unpack(widths, bs, at) == values
    decreases |widths|
  {
    hide ToLE, FromLE, Pow256;
    if widths != [] {
      var mid := at + widths[0];
      SliceSplit(bs, at, mid, at + Total(widths));
      ConcatCancel(bs[at..mid], bs[mid..at + Total(widths)],
                   ToLE(widths[0], values[0]), Pack(widths[1..], values[1..]));
      FromToLE(widths[0], values[0]);
      UnpackPack(widths[1..], values[1..], bs, mid);
      assert values == [values[0]] + values[1..];
    }
  }

  /** Packing what was read gives the bytes back. */
  lemma {:induction false} PackUnpack(widths: seq<nat>, bs: seq<byte>, at: nat)
    requires at + Total(widths) <= |bs|
    ensures Pack(widths, Unpack(widths, bs, at)) == bs[at..at + Total(widths)] && Fits(widths, Unpack(widths, bs, at))
    decreases |widths|
  {
    hide ToLE, FromLE, Pow256;
    if widths != [] {
      var mid := at + widths[0];
      ToFromLE(bs[at..mid]);
      PackUnpack(widths[1..], bs, mid);
      SliceSplit(bs, at, mid, at + Total(widths));
      assert Unpack(widths, bs, at)[1..] == Unpack(widths[1..], bs, mid);
    }
  }

  function Offset(widths: seq<nat>, k: nat): nat
    requires k <= |widths|
    decreases k
  {
    if k == 0 then 0 else widths[0] + Offset(widths[1..], k - 1)
  }

  /** Field `k` is read at the sum of the widths before it. */
  lemma {:induction false} UnpackAt(widths: seq<nat>, bs: seq<byte>, at: nat, k: nat)
    requires at + Total(widths) <= |bs| && k < |widths|
    ensures at + Offset(widths, k) + widths[k] <= |bs|
    ensures Unpack(widths, bs, at)[k] == FromLE(bs[at + Offset(widths, k)..at + Offset(widths, k) + widths[k]])
    decreases k
  {
    hide FromLE;
    if k > 0 {
      UnpackAt(widths[1..], bs, at + widths[0], k - 1);
    }
  }

  // ----- Runs of 16-bit words -----

  function WordBytesLE(w: Word): (bs: seq<byte>)
    ensures |bs| == 2
  {
    [ByteOf(w), ByteOf(w / 256)]
  }

  function WordAt(bs: seq<byte>, i: nat): Word
    requires i + 1 < |bs|
  {
    bs[i] as int + 256 * bs[i + 1] as int
  }

  function PackWords(words: seq<Word>): (bs: seq<byte>)
    ensures |bs| == 2 * |words|
  {
    if words == [] then [] else WordBytesLE(words[0]) + PackWords(words[1..])
  }

  function UnpackWords(bs: seq<byte>, at: nat, n: nat): (words: seq<Word>)
    requires at + 2 * n <= |bs|
    ensures |words| == n
  {
    seq(n, k requires 0 <= k < n => WordAt(bs, at + 2 * k))
  }

  lemma {:induction false} PackWordsAt(words: seq<Word>, k: nat)
    requires k < |words|
    ensures PackWords(words)[2 * k] == ByteOf(words[k]) && PackWords(words)[2 * k + 1] == ByteOf(words[k] / 256)
    decreases k
  {
    if k > 0 {
      PackWordsAt(words[1..], k - 1);
    }
  }

  lemma WordRoundTrip(w: Word)
    ensures ByteOf(w) as int + 256 * ByteOf(w / 256) as int == w
  {
  }

  lemma UnpackPackWords(words: seq<Word>, bs: seq<byte>, at: nat)
    requires at + 2 * |words| <= |bs| && bs[at..at + 2 * |words|] == PackWords(words)
    ensures UnpackWords(bs, at, |words|) == words
  {
    hide PackWords, ByteOf;
    forall k | 0 <= k < |words| ensures UnpackWords(bs, at, |words|)[k] == words[k] {
      WordInPlace(words, bs, at, k);
    }
  }

  lemma WordInPlace(words: seq<Word>, bs: seq<byte>, at: nat, k: nat)
    requires at + 2 * |words| <= |bs| && bs[at..at + 2 * |words|] == PackWords(words) && k < |words|
    ensures WordAt(bs, at + 2 * k) == words[k]
  {
    hide PackWords, ByteOf;
    var slice := bs[at..at + 2 * |words|];
    PackWordsAt(words, k);
    assert bs[at + 2 * k] == slice[2 * k] && bs[at + 2 * k + 1] == slice[2 * k + 1];
    WordRoundTrip(words[k]);
  }

  lemma PackUnpackWords(bs: seq<byte>, at: nat, n: nat)
    requires at + 2 * n <= |bs|
    ensures PackWords(UnpackWords(bs, at, n)) == bs[at..at + 2 * n]
  {
    hide PackWords;
    var words := UnpackWords(bs, at, n);
    var packed, slice := PackWords(words), bs[at..at + 2 * n];
    forall i | 0 <= i < 2 * n ensures packed[i] == slice[i] {
      var k := i / 2;
      UnpackedPair(bs, at, n, k);
      assert i == 2 * k || i == 2 * k + 1;
    }
  }

  lemma UnpackedPair(bs: seq<byte>, at: nat, n: nat, k: nat)
    requires at + 2 * n <= |bs| && k < n
    ensures var packed := PackWords(UnpackWords(bs, at, n));
            packed[2 * k] == bs[at + 2 * k] && packed[2 * k + 1] == bs[at + 2 * k + 1]
  {
    hide PackWords;
    PackWordsAt(UnpackWords(bs, at, n), k);
  }
}

/**
 * The audio mixer: the latest buffer of raw 16-bit little-endian samples per
 * user, and their mixdown into one buffer.
 *
 * The arithmetic is exact: the mean and the attenuation are computed over
 * `real`, where the original accumulates in float32.
 */
module Audio {
  import opened Common

  const Int16Min: int := -0x8000
  const Int16Max: int := 0x7FFF

  predicate IsSample(x: int)
  {
    Int16Min <= x <= Int16Max
  }

  predicate AllSamples(s: seq<int>)
  {
    forall i :: 0 <= i < |s| ==> IsSample(s[i])
  }

  /** The signed value of a little-endian pair of bytes. */
  function SampleOf(lo: byte, hi: byte): (v: int)
    ensures IsSample(v)
  {
    var u := lo as int + 0x100 * hi as int;
    if u >= 0x8000 then u - 0x10000 else u
  }

  /** The two bytes, low first, of a sample in two's complement. */
  function BytesOf(v: int): (b: seq<byte>)
    requires IsSample(v)
    ensures |b| == 2 && SampleOf(b[0], b[1]) == v
  {
    var u := v % 0x10000;
    [(u % 0x100) as byte, (u / 0x100) as byte]
  }

  /** `np.frombuffer(b, dtype=np.int16)`: two bytes per sample. */
  function Decode(b: seq<byte>): (s: seq<int>)
    requires |b| % 2 == 0
    ensures |s| == |b| / 2 && AllSamples(s)
  {
    if b == [] then [] else [SampleOf(b[0], b[1])] + Decode(b[2..])
  }

  /** `ndarray.tobytes()` of int16 samples. */
  function Encode(s: seq<int>): (b: seq<byte>)
    requires AllSamples(s)
    ensures |b| == 2 * |s|
  {
    if s == [] then [] else BytesOf(s[0]) + Encode(s[1..])
  }

  /** Every int16 sample survives encoding and decoding. */
  lemma {:induction false} DecodeEncode(s: seq<int>)
    requires AllSamples(s)
    ensures Decode(Encode(s)) == s
  {
    if s != [] {
      var b := Encode(s);
      assert b[2..] == Encode(s[1..]);
      DecodeEncode(s[1..]);
    }
  }

  /** Every pair of bytes is the encoding of the sample it decodes to. */
  lemma BytesOfSampleOf(lo: byte, hi: byte)
    ensures BytesOf(SampleOf(lo, hi)) == [lo, hi]
  {
    var u := lo as int + 0x100 * hi as int;
    assert SampleOf(lo, hi) % 0x10000 == u;
    assert u % 0x100 == lo as int && u / 0x100 == hi as int;
  }

  /** Every buffer of even length survives decoding and encoding. */
  lemma {:induction false} EncodeDecode(b: seq<byte>)
    requires |b| % 2 == 0
    ensures Encode(Decode(b)) == b
  {
    if b != [] {
      var s := Decode(b);
      assert s[1..] == Decode(b[2..]);
      BytesOfSampleOf(b[0], b[1]);
      EncodeDecode(b[2..]);
      assert b == [b[0], b[1]] + b[2..];
    }
  }

  /** The length of the shortest array: `min(len(arr) for arr in audio_arrays)`. */
  function MinLength(arrays: seq<seq<int>>): (m: nat)
    requires |arrays| > 0
    ensures forall i :: 0 <= i < |arrays| ==> m <= |arrays[i]|
    ensures exists i :: 0 <= i < |arrays| && m == |arrays[i]|
  {
    if |arrays| == 1 then |arrays[0]|
    else
      var rest := MinLength(arrays[1..]);
      assert forall i :: 1 <= i < |arrays| ==> arrays[i] == arrays[1..][i - 1];
      if |arrays[0]| <= rest then |arrays[0]| else rest
  }

  /** Every array cut to its first `m` samples. */
  function Truncated(arrays: seq<seq<int>>, m: nat): (t: seq<seq<int>>)
    requires forall i :: 0 <= i < |arrays| ==> m <= |arrays[i]|
    ensures |t| == |arrays|
    ensures forall i :: 0 <= i < |t| ==> |t[i]| == m && t[i] <= arrays[i]
  {
    seq(|arrays|, i requires 0 <= i < |arrays| => arrays[i][..m])
  }

  /** Sample `j` of every array, summed; `n` int16 samples sum to within `n` times the int16 bounds. */
  function ColumnSum(arrays: seq<seq<int>>, j: nat): (s: int)
    requires forall i :: 0 <= i < |arrays| ==> j < |arrays[i]|
    ensures (forall i :: 0 <= i < |arrays| ==> IsSample(arrays[i][j])) ==>
      |arrays| * Int16Min <= s <= |arrays| * Int16Max
  {
    if arrays == [] then 0 else arrays[0][j] + ColumnSum(arrays[1..], j)
  }

  /** Sample `j` of the mean over the arrays: the value that, times the count, gives the column sum. */
  function Mean(arrays: seq<seq<int>>, j: nat): (m: real)
    requires |arrays| > 0
    requires forall i :: 0 <= i < |arrays| ==> j < |arrays[i]|
    ensures m * |arrays| as real == ColumnSum(arrays, j) as real
  {
    ColumnSum(arrays, j) as real / |arrays| as real
  }

  /** `mixed * (0.7 / n)`, applied only when more than one stream contributes. */
  function Attenuated(x: real, n: nat): (a: real)
    ensures n <= 1 ==> a == x
    ensures n > 1 ==> a * n as real == 0.7 * x
  {
    if n > 1 then x * (0.7 / n as real) else x
  }

  /** `np.clip` to the int16 range. */
  function Clip(x: real): (y: real)
    ensures Int16Min as real <= y <= Int16Max as real
    ensures Int16Min as real <= x <= Int16Max as real ==> y == x
    ensures x < Int16Min as real ==> y == Int16Min as real
    ensures x > Int16Max as real ==> y == Int16Max as real
  {
    if x < Int16Min as real then Int16Min as real
    else if x > Int16Max as real then Int16Max as real
    else x
  }

  /** `astype(np.int16)`: truncation toward zero. */
  function TruncToInt(x: real): (k: int)
    ensures x >= 0.0 ==> k as real <= x < k as real + 1.0
    ensures x < 0.0 ==> k as real - 1.0 < x <= k as real
  {
    if x >= 0.0 then x.Floor else -((-x).Floor)
  }

  /** Sample `j` of the mixdown of arrays that all have at least `j + 1` samples. */
  function MixedSample(arrays: seq<seq<int>>, j: nat): (v: int)
    requires |arrays| > 0
    requires forall i :: 0 <= i < |arrays| ==> j < |arrays[i]|
    ensures IsSample(v)
  {
    TruncToInt(Clip(Attenuated(Mean(arrays, j), |arrays|)))
  }

  /** The mixdown in samples: cut every array to the shortest, then mix sample by sample. */
  function MixSamples(arrays: seq<seq<int>>): (r: seq<int>)
    requires |arrays| > 0
    ensures |r| == MinLength(arrays) && AllSamples(r)
  {
    var m := MinLength(arrays);
    var t := Truncated(arrays, m);
    seq(m, j requires 0 <= j < m => MixedSample(t, j))
  }

  predicate AllEven(buffers: seq<seq<byte>>)
  {
    forall i :: 0 <= i < |buffers| ==> |buffers[i]| % 2 == 0
  }

  lemma EncodeDecodeEach(buffers: seq<seq<byte>>)
    requires AllEven(buffers)
    ensures forall i :: 0 <= i < |buffers| ==> Encode(Decode(buffers[i])) == buffers[i]
  {
    forall i | 0 <= i < |buffers| {
      EncodeDecode(buffers[i]);
    }
  }

  /** Every buffer read as int16 samples: the sample sequences that encode back to the buffers. */
  function DecodeAll(buffers: seq<seq<byte>>): (arrays: seq<seq<int>>)
    requires AllEven(buffers)
    ensures |arrays| == |buffers|
    ensures forall i :: 0 <= i < |buffers| ==>
      |arrays[i]| * 2 == |buffers[i]| && AllSamples(arrays[i]) && Encode(arrays[i]) == buffers[i]
  {
    EncodeDecodeEach(buffers);
    seq(|buffers|, i requires 0 <= i < |buffers| => Decode(buffers[i]))
  }

  /** `np.frombuffer` refuses a buffer whose length is not a multiple of two. */
  datatype MixError = OddLength

  /** `mix_audio` over the buffers in table order. */
  function Mix(buffers: seq<seq<byte>>): (r: Result<seq<byte>, MixError>)
    ensures |buffers| == 0 ==> r == Ok([])
    ensures r.Err? <==> |buffers| > 0 && !AllEven(buffers)
  {
    if |buffers| == 0 then Ok([])
    else if !AllEven(buffers) then Err(OddLength)
    else Ok(Encode(MixSamples(DecodeAll(buffers))))
  }

  /** The output decodes to the mixed samples, each in the int16 range. */
  lemma MixDecodes(buffers: seq<seq<byte>>)
    requires |buffers| > 0 && AllEven(buffers)
    ensures Mix(buffers).Ok? && |Mix(buffers).value| % 2 == 0
    ensures Decode(Mix(buffers).value) == MixSamples(DecodeAll(buffers))
    ensures AllSamples(Decode(Mix(buffers).value))
  {
    DecodeEncode(MixSamples(DecodeAll(buffers)));
  }

  /** The output is exactly as long as the shortest input buffer. */
  lemma MixLength(buffers: seq<seq<byte>>)
    requires |buffers| > 0 && AllEven(buffers)
    ensures Mix(buffers).Ok?
    ensures forall i :: 0 <= i < |buffers| ==> |Mix(buffers).value| <= |buffers[i]|
    ensures exists i :: 0 <= i < |buffers| && |Mix(buffers).value| == |buffers[i]|
  {
    var arrays := DecodeAll(buffers);
    var m := MinLength(arrays);
    var i :| 0 <= i < |arrays| && m == |arrays[i]|;
    assert |Mix(buffers).value| == |buffers[i]|;
  }

  /** A lone stream passes through unchanged: no attenuation, nothing cut off. */
  lemma MixSingle(b: seq<byte>)
    requires |b| % 2 == 0
    ensures Mix([b]) == Ok(b)
  {
    var arrays := DecodeAll([b]);
    var s := Decode(b);
    assert arrays == [s];
    assert MinLength(arrays) == |s|;
    var t := Truncated(arrays, MinLength(arrays));
    assert t[0] == s[..|s|] == s;
    assert t == [s];
    forall j | 0 <= j < |s| ensures MixedSample(t, j) == s[j] {
      assert ColumnSum(t, j) == s[j] + ColumnSum(t[1..], j);
      assert t[1..] == [];
    }
    assert MixSamples(arrays) == s;
    EncodeDecode(b);
  }

  /** Dividing by a positive `d` keeps an upper bound given as a multiple of `d`. */
  lemma DivAtMost(s: real, d: real, b: real)
    requires d > 0.0 && s <= b * d
    ensures s / d <= b
  {
    assert s / d * d == s;
  }

  /** Dividing by a positive `d` keeps a lower bound given as a multiple of `d`. */
  lemma DivAtLeast(s: real, d: real, b: real)
    requires d > 0.0 && b * d <= s
    ensures b <= s / d
  {
    assert s / d * d == s;
  }

  /** Multiplying by a non-negative `g` keeps an ordering. */
  lemma MulAtMost(x: real, y: real, g: real)
    requires x <= y && g >= 0.0
    ensures x * g <= y * g
  {
    assert y * g - x * g == (y - x) * g;
  }

  /** With `n > 1` streams a gain of `0.7 / n` keeps a mean's magnitude below 11469. */
  lemma AttenuationBound(sum: int, n: nat)
    requires n > 1 && n * Int16Min <= sum <= n * Int16Max
    ensures -11468.8 <= Attenuated(sum as real / n as real, n) <= 11468.8
  {
    var nr := n as real;
    var mean := sum as real / nr;
    DivAtMost(sum as real, nr, 32767.0);
    DivAtLeast(sum as real, nr, -32768.0);
    var g := 0.7 / nr;
    DivAtMost(0.7, nr, 0.35);
    DivAtLeast(0.7, nr, 0.0);
    MulAtMost(mean, 32767.0, g);
    MulAtMost(-32768.0, mean, g);
  }

  /** Sample `j` of several streams' mixdown is their attenuated mean, and the clip never engages. */
  lemma MixedSampleSeveral(arrays: seq<seq<int>>, j: nat)
    requires |arrays| > 1
    requires forall i :: 0 <= i < |arrays| ==> j < |arrays[i]| && IsSample(arrays[i][j])
    ensures MixedSample(arrays, j) == TruncToInt(Attenuated(Mean(arrays, j), |arrays|))
    ensures -11468 <= MixedSample(arrays, j) <= 11468
  {
    var x := Attenuated(Mean(arrays, j), |arrays|);
    AttenuationBound(ColumnSum(arrays, j), |arrays|);
    assert Clip(x) == x;
  }

  /**
   * With several streams every output sample is the attenuated mean, truncated
   * toward zero: the clip to the int16 range never engages, and each sample
   * lies within 11468 of zero.
   */
  lemma MixSeveral(buffers: seq<seq<byte>>, j: nat)
    requires |buffers| > 1 && AllEven(buffers)
    requires j < |MixSamples(DecodeAll(buffers))|
    ensures
      var arrays := Truncated(DecodeAll(buffers), MinLength(DecodeAll(buffers)));
      && MixSamples(DecodeAll(buffers))[j] == TruncToInt(Attenuated(Mean(arrays, j), |buffers|))
      && -11468 <= MixSamples(DecodeAll(buffers))[j] <= 11468
  {
    var decoded := DecodeAll(buffers);
    var m := MinLength(decoded);
    var arrays := Truncated(decoded, m);
    assert j < m;
    assert MixSamples(decoded)[j] == MixedSample(arrays, j);
    forall i | 0 <= i < |arrays| ensures j < |arrays[i]| && IsSample(arrays[i][j]) {
      assert AllSamples(decoded[i]);
      assert arrays[i] == decoded[i][..m];
    }
    MixedSampleSeveral(arrays, j);
  }

  /** Sample `j` of two opposite streams mixes to zero. */
  lemma MixedSampleOpposite(arrays: seq<seq<int>>, j: nat)
    requires |arrays| == 2 && j < |arrays[0]| && j < |arrays[1]|
    requires arrays[1][j] == -arrays[0][j]
    ensures MixedSample(arrays, j) == 0
  {
    assert ColumnSum(arrays, j) == arrays[0][j] + (arrays[1][j] + ColumnSum(arrays[2..], j));
    assert arrays[2..] == [];
    assert Mean(arrays, j) == 0.0;
  }

  /** Two streams that are sample-wise negations of each other mix to silence. */
  lemma MixCancels(a: seq<byte>, b: seq<byte>)
    requires |a| == |b| && |a| % 2 == 0
    requires forall j :: 0 <= j < |a| / 2 ==> Decode(b)[j] == -Decode(a)[j]
    ensures Mix([a, b]) == Ok(Encode(seq(|a| / 2, _ => 0)))
  {
    var arrays := DecodeAll([a, b]);
    assert arrays == [Decode(a), Decode(b)];
    var m := MinLength(arrays);
    assert m == |a| / 2;
    var t := Truncated(arrays, m);
    forall j | 0 <= j < m ensures MixedSample(t, j) == 0 {
      assert t[0][j] == Decode(a)[j] && t[1][j] == Decode(b)[j];
      MixedSampleOpposite(t, j);
    }
    assert MixSamples(arrays) == seq(|a| / 2, _ => 0);
  }

  /** The mixer's table: the latest buffer per user, in insertion order. */
  class AudioMixer {
    var audioBuffers: map<string, seq<byte>>
    var order: seq<string>

    ghost predicate Valid()
      reads this
    {
      OrdersKeys(order, audioBuffers)
    }

    constructor ()
      ensures Valid() && audioBuffers == map[] && order == []
    {
      audioBuffers := map[];
      order := [];
    }

    /** The buffers in the order `audio_buffers.values()` yields them. */
    function Streams(): (s: seq<seq<byte>>)
      requires Valid()
      reads this
      ensures |s| == |order| == |audioBuffers|
      ensures forall i :: 0 <= i < |order| ==> s[i] == audioBuffers[order[i]]
      ensures forall u :: u in audioBuffers ==> audioBuffers[u] in s
    {
      OrderLength(order, audioBuffers);
      var table, ids := audioBuffers, order;
      seq(|ids|, i requires 0 <= i < |ids| && ids[i] in table => table[ids[i]])
    }

    /** `add_audio_stream`: the user's buffer is replaced; a new user goes last. */
    method AddAudioStream(user: string, data: seq<byte>)
      requires Valid()
      modifies this
      ensures Valid()
      ensures audioBuffers == old(audioBuffers)[user := data]
      ensures order == if user in old(audioBuffers) then old(order) else old(order) + [user]
    {
      if user !in audioBuffers {
        order := order + [user];
      }
      audioBuffers := audioBuffers[user := data];
    }

    /** `remove_audio_stream`: deletes the user's entry; a no-op for an unknown user. */
    method RemoveAudioStream(user: string)
      requires Valid()
      modifies this
      ensures Valid()
      ensures audioBuffers == old(audioBuffers) - {user}
      ensures order == Without(old(order), user)
      ensures user !in old(audioBuffers) ==> audioBuffers == old(audioBuffers) && order == old(order)
    {
      if user in audioBuffers {
        var rest := Without(order, user);
        forall i | 0 <= i < |rest| ensures rest[i] in audioBuffers - {user} {
          assert rest[i] in rest;
        }
        audioBuffers := audioBuffers - {user};
        order := rest;
      }
    }

    /** `mix_audio`: decodes each buffer in turn, then mixes them. */
    method MixAudio() returns (r: Result<seq<byte>, MixError>)
      requires Valid()
      ensures r == Mix(Streams())
    {
      if |order| == 0 {
        return Ok([]);
      }
      ghost var streams := Streams();
      var arrays: seq<seq<int>> := [];
      var i := 0;
      while i < |order|
        invariant 0 <= i <= |order|
        invariant |arrays| == i
        invariant forall k :: 0 <= k < i ==> |streams[k]| % 2 == 0 && arrays[k] == Decode(streams[k])
      {
        var data := audioBuffers[order[i]];
        if |data| % 2 != 0 {
          return Err(OddLength);
        }
        arrays := arrays + [Decode(data)];
        i := i + 1;
      }
      assert arrays == DecodeAll(streams);
      r := Ok(Encode(MixSamples(arrays)));
    }
  }
}

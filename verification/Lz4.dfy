/** The two LZ4 block decoders, an encoder of the same format, and when they agree. */
module Lz4 {
  import opened Options

  type Byte = x: int | 0 <= x < 256

  // Python's indexing and slicing

  /** `s[k]`: a negative index counts from the end; None where Python raises IndexError. */
  function Item(s: seq<Byte>, k: int): Option<Byte>
  {
    if 0 <= k < |s| then Some(s[k]) else if -|s| <= k < 0 then Some(s[|s| + k]) else None
  }

  function Bound(length: nat, k: int): (b: nat)
    ensures b <= length
  {
    if k >= length then length else if k >= 0 then k else if length + k >= 0 then length + k else 0
  }

  /** `s[from:to]`, which never raises. */
  function Slice(s: seq<Byte>, from: int, to: int): seq<Byte>
  {
    var lo, hi := Bound(|s|, from), Bound(|s|, to);
    if lo <= hi then s[lo..hi] else []
  }

  // Decoding

  /** The 255-chain: the length read and the index after it. */
  function Chain(src: seq<Byte>, i: nat, length: nat): (r: Option<(nat, nat)>)
    ensures r.Some? ==> r.value.0 >= length && i < r.value.1 <= |src|
    decreases |src| - i
  {
    if i >= |src| then None
    else if src[i] != 255 then Some((length + src[i], i + 1))
    else Chain(src, i + 1, length + 255)
  }

  function Length(src: seq<Byte>, i: nat, nibble: nat): (r: Option<(nat, nat)>)
    ensures r.Some? ==> r.value.0 >= nibble && i <= r.value.1
  {
    if nibble == 15 then Chain(src, i, 15) else Some((nibble, i))
  }

  /** Appends `out[k]`, `out[k + 1]`, … while `out` grows. */
  function SlowCopy(out: seq<Byte>, k: int, count: nat): Option<seq<Byte>>
    decreases count
  {
    if count == 0 then Some(out)
    else match Item(out, k)
      case None => None
      case Some(b) => SlowCopy(out + [b], k + 1, count - 1)
  }

  function FastCopy(out: seq<Byte>, offset: nat, count: nat): Option<seq<Byte>>
  {
    var start := |out| - offset;
    if offset >= count then Some(out + Slice(out, start, start + count)) else SlowCopy(out, start, count)
  }

  function Copy(fast: bool, out: seq<Byte>, offset: nat, count: nat): Option<seq<Byte>>
  {
    if fast then FastCopy(out, offset, count) else SlowCopy(out, |out| - offset, count)
  }

  /** `src[k] | (src[k + 1] << 8)`: the two bytes share no bits. */
  function Offset(src: seq<Byte>, k: nat): nat
    requires k + 1 < |src|
  {
    var lo: nat, hi: nat := src[k], src[k + 1];
    lo + 256 * hi
  }

  /** Decoding from index `i` with `out` already produced. */
  function Decode(fast: bool, src: seq<Byte>, i: nat, out: seq<Byte>): Option<seq<Byte>>
    decreases |src| - i
  {
    if i >= |src| then Some(out)
    else
      var token := src[i];
      match Length(src, i + 1, token / 16)
      case None => None
      case Some((lit, j)) =>
        var out1 := out + Slice(src, j, j + lit);
        if j + lit >= |src| then Some(out1)
        else if j + lit + 1 >= |src| then None
        else
          var offset := Offset(src, j + lit);
          match Length(src, j + lit + 2, token % 16)
          case None => None
          case Some((match4, next)) =>
            match Copy(fast, out1, offset, match4 + 4)
            case None => None
            case Some(out2) => Decode(fast, src, next, out2)
  }

  // The decoders as they run

  datatype Outcome = Decoded(bytes: seq<Byte>) | IndexError | SizeMismatch

  method ReadLength(src: seq<Byte>, start: nat, nibble: nat) returns (r: Option<(nat, nat)>)
    ensures r == Length(src, start, nibble)
  {
    var i: nat, length: nat := start, nibble;
    if length == 15 {
      while true
        invariant start <= i && Chain(src, i, length) == Chain(src, start, 15)
        decreases |src| - i
      {
        if i >= |src| {
          return None;
        }
        var b := src[i];
        i, length := i + 1, length + b;
        if b != 255 {
          return Some((length, i));
        }
      }
    }
    return Some((length, i));
  }

  method CopyBytes(out: seq<Byte>, start: int, count: nat) returns (r: Option<seq<Byte>>)
    ensures r == SlowCopy(out, start, count)
  {
    var bytes := out;
    for j := 0 to count
      invariant SlowCopy(bytes, start + j, count - j) == SlowCopy(out, start, count)
    {
      var b := Item(bytes, start + j);
      if b.None? {
        return None;
      }
      bytes := bytes + [b.value];
    }
    return Some(bytes);
  }

  method CopyMatch(fast: bool, out: seq<Byte>, offset: nat, count: nat) returns (r: Option<seq<Byte>>)
    ensures r == Copy(fast, out, offset, count)
  {
    var start := |out| - offset;
    if fast && offset >= count {
      return Some(out + Slice(out, start, start + count));
    }
    r := CopyBytes(out, start, count);
  }

  /** The loop both decoders share; they differ in how a match is copied. */
  method DecodeBlock(fast: bool, src: seq<Byte>) returns (r: Option<seq<Byte>>)
    ensures r == Decode(fast, src, 0, [])
  {
    hide Length, Copy, Slice, Offset;
    var out: seq<Byte> := [];
    var i := 0;
    while i < |src|
      invariant Decode(fast, src, i, out) == Decode(fast, src, 0, [])
      decreases |src| - i
    {
      var token := src[i];
      var literal := ReadLength(src, i + 1, token / 16);
      if literal.None? {
        return None;
      }
      var (length, j) := literal.value;
      out := out + Slice(src, j, j + length);
      j := j + length;
      if j >= |src| {
        return Some(out);
      }
      if j + 1 >= |src| {
        return None;
      }
      var offset := Offset(src, j);
      var more := ReadLength(src, j + 2, token % 16);
      if more.None? {
        return None;
      }
      var copied := CopyMatch(fast, out, offset, more.value.0 + 4);
      if copied.None? {
        return None;
      }
      out := copied.value;
      i := more.value.1;
    }
    return Some(out);
  }

  method BlockDecompress(src: seq<Byte>, uncompressedSize: int) returns (r: Outcome)
    ensures r == match Decode(false, src, 0, [])
                 case None => IndexError
                 case Some(out) => if |out| == uncompressedSize then Decoded(out) else SizeMismatch
  {
    var out := DecodeBlock(false, src);
    if out.None? {
      return IndexError;
    }
    if |out.value| != uncompressedSize {
      return SizeMismatch;
    }
    return Decoded(out.value);
  }

  method BlockNoSize(src: seq<Byte>) returns (r: Outcome)
    ensures r == match Decode(true, src, 0, []) case None => IndexError case Some(out) => Decoded(out)
  {
    var out := DecodeBlock(true, src);
    if out.None? {
      return IndexError;
    }
    return Decoded(out.value);
  }

  // What a block means, and its encoding

  /** Literals, then a match of `length` bytes starting `offset` back in what has been produced. */
  datatype Sequence = Sequence(literals: seq<Byte>, offset: nat, length: nat)

  /** `k` modulo `period`. */
  function Phase(k: nat, period: nat): (r: nat)
    requires period > 0
    ensures r < period
    decreases k
  {
    if k < period then k else Phase(k - period, period)
  }

  /** The match as the format defines it: the last `offset` bytes, over and over. */
  function Matched(out: seq<Byte>, offset: nat, count: nat): (r: seq<Byte>)
    requires 1 <= offset <= |out|
    ensures |r| == |out| + count
  {
    out + seq(count, k requires 0 <= k < count => out[|out| - offset + Phase(k, offset)])
  }

  predicate Valid(out: seq<Byte>, s: Sequence)
  {
    1 <= s.offset <= |out| + |s.literals| && s.offset < 0x1_0000 && s.length >= 4
  }

  function Produce(out: seq<Byte>, s: Sequence): seq<Byte>
    requires Valid(out, s)
  {
    Matched(out + s.literals, s.offset, s.length)
  }

  predicate AllValid(out: seq<Byte>, ss: seq<Sequence>)
    decreases |ss|
  {
    ss != [] ==> Valid(out, ss[0]) && AllValid(Produce(out, ss[0]), ss[1..])
  }

  function Meaning(out: seq<Byte>, ss: seq<Sequence>, last: seq<Byte>): seq<Byte>
    requires AllValid(out, ss)
    decreases |ss|
  {
    if ss == [] then out + last else Meaning(Produce(out, ss[0]), ss[1..], last)
  }

  function Nibble(length: nat): nat { if length < 15 then length else 15 }

  function ChainBytes(rest: nat): (bytes: seq<Byte>)
  {
    if rest < 255 then [rest] else [255] + ChainBytes(rest - 255)
  }

  function LengthBytes(length: nat): seq<Byte> { if length < 15 then [] else ChainBytes(length - 15) }

  function EncodeSequence(s: Sequence): seq<Byte>
    requires s.offset < 0x1_0000 && s.length >= 4
  {
    [16 * Nibble(|s.literals|) + Nibble(s.length - 4)] + LengthBytes(|s.literals|) + s.literals
      + [s.offset % 256, s.offset / 256] + LengthBytes(s.length - 4)
  }

  function Encode(out: seq<Byte>, ss: seq<Sequence>, last: seq<Byte>): (bytes: seq<Byte>)
    requires AllValid(out, ss)
    ensures bytes != []
    decreases |ss|
  {
    if ss == [] then [16 * Nibble(|last|)] + LengthBytes(|last|) + last
    else EncodeSequence(ss[0]) + Encode(Produce(out, ss[0]), ss[1..], last)
  }

  // Lengths round-trip

  lemma {:induction false} ChainReads(src: seq<Byte>, i: nat, rest: nat, base: nat)
    requires i + |ChainBytes(rest)| <= |src| && src[i..i + |ChainBytes(rest)|] == ChainBytes(rest)
    ensures Chain(src, i, base) == Some((base + rest, i + |ChainBytes(rest)|))
    decreases rest
  {
    var bytes := ChainBytes(rest);
    assert src[i] == src[i..i + |bytes|][0] == bytes[0];
    if rest >= 255 {
      assert src[i + 1..i + |bytes|] == bytes[1..] == ChainBytes(rest - 255);
      ChainReads(src, i + 1, rest - 255, base + 255);
    }
  }

  lemma LengthReads(src: seq<Byte>, i: nat, length: nat)
    requires i + |LengthBytes(length)| <= |src| && src[i..i + |LengthBytes(length)|] == LengthBytes(length)
    ensures Length(src, i, Nibble(length)) == Some((length, i + |LengthBytes(length)|))
  {
    if length >= 15 {
      ChainReads(src, i, length - 15, 15);
    }
  }

  // Copies

  /** Copying byte by byte from the growing output repeats its last `offset` bytes. */
  lemma {:induction false} SlowCopyMatches(out: seq<Byte>, offset: nat, done: nat, count: nat)
    requires 1 <= offset <= |out|
    ensures SlowCopy(Matched(out, offset, done), |out| - offset + done, count) == Some(Matched(out, offset, done + count))
    decreases count
  {
    if count > 0 {
      var now, k := Matched(out, offset, done), |out| - offset + done;
      SourceByte(out, offset, done);
      assert now + [now[k]] == Matched(out, offset, done + 1);
      SlowCopyMatches(out, offset, done + 1, count - 1);
    }
  }

  lemma SourceByte(out: seq<Byte>, offset: nat, done: nat)
    requires 1 <= offset <= |out|
    ensures Matched(out, offset, done)[|out| - offset + done] == out[|out| - offset + Phase(done, offset)]
  {
  }

  lemma CopyMatches(fast: bool, out: seq<Byte>, offset: nat, count: nat)
    requires 1 <= offset <= |out|
    ensures Copy(fast, out, offset, count) == Some(Matched(out, offset, count))
  {
    if fast && offset >= count {
      var start := |out| - offset;
      forall k | 0 <= k < count ensures Slice(out, start, start + count)[k] == out[start + Phase(k, offset)] {
      }
      assert out + Slice(out, start, start + count) == Matched(out, offset, count);
    } else {
      assert Matched(out, offset, 0) == out;
      SlowCopyMatches(out, offset, 0, count);
    }
  }

  lemma CopiesAgree(out: seq<Byte>, offset: nat, count: nat)
    requires offset <= |out| || offset < count
    ensures count >= 4 ==> FastCopy(out, offset, count) == SlowCopy(out, |out| - offset, count)
  {
    if offset >= count >= 4 {
      CopyMatches(true, out, offset, count);
      CopyMatches(false, out, offset, count);
    }
  }

  /** With nothing else known of the bytes, the two copies agree exactly when the match starts inside the
      output or overlaps its own end. Elsewhere Python's negative indices make them differ. */
  lemma CopiesAgreeExactly(length: nat, offset: nat, count: nat)
    requires count >= 4
    ensures (forall out: seq<Byte> | |out| == length :: FastCopy(out, offset, count) == SlowCopy(out, |out| - offset, count))
            == (offset <= length || offset < count)
  {
    hide FastCopy, SlowCopy;
    if offset <= length || offset < count {
      forall out: seq<Byte> | |out| == length ensures FastCopy(out, offset, count) == SlowCopy(out, |out| - offset, count) {
        CopiesAgree(out, offset, count);
      }
    } else {
      var p := 2 * length - offset;
      var out: seq<Byte> := seq(length, i => if i == p + 1 then 1 else 0);
      CopiesDiffer(out, offset, count);
      assert FastCopy(out, offset, count) != SlowCopy(out, |out| - offset, count);
    }
  }

  /** Past the start of the output the slice is read in steps of one, the growing output in steps of two. */
  lemma CopiesDiffer(out: seq<Byte>, offset: nat, count: nat)
    requires count >= 4 && offset > |out| && offset >= count
    requires var p := 2 * |out| - offset; 0 <= p && p + 2 < |out| ==> out[p + 1] != out[p + 2]
    ensures FastCopy(out, offset, count) != SlowCopy(out, |out| - offset, count)
  {
    hide SlowCopy;
    var start, p := |out| - offset, 2 * |out| - offset;
    var fast, slow := FastCopy(out, offset, count), SlowCopy(out, start, count);
    SlowCopyPrefix(out, start, count);
    if p < 0 {
      NoFirstByte(out, start, count);
    } else if start + count < 0 {
      SecondByte(out, start, count);
      assert fast.value[|out| + 1] == Slice(out, start, start + count)[1] == out[p + 1];
    } else {
      assert |Slice(out, start, start + count)| < count;
    }
  }

  lemma NoFirstByte(out: seq<Byte>, k: int, count: nat)
    requires k < -|out| && count > 0
    ensures SlowCopy(out, k, count) == None
  {
  }

  lemma SecondByte(out: seq<Byte>, k: int, count: nat)
    requires -|out| <= k && k + count < 0 && count >= 4
    ensures var slow := SlowCopy(out, k, count);
      slow.Some? ==> |slow.value| == |out| + count && slow.value[|out| + 1] == out[|out| + k + 2]
  {
    var one := out + [out[|out| + k]];
    var two := one + [one[|out| + k + 2]];
    assert Item(out, k) == Some(out[|out| + k]);
    assert Item(one, k + 1) == Some(one[|out| + k + 2]);
    assert SlowCopy(out, k, count) == SlowCopy(one, k + 1, count - 1) == SlowCopy(two, k + 2, count - 2);
    SlowCopyPrefix(two, k + 2, count - 2);
  }

  lemma {:induction false} SlowCopyPrefix(out: seq<Byte>, k: int, count: nat)
    ensures var r := SlowCopy(out, k, count);
      r.Some? ==> |r.value| == |out| + count && forall i :: 0 <= i < |out| ==> r.value[i] == out[i]
    decreases count
  {
    if count > 0 && Item(out, k).Some? {
      SlowCopyPrefix(out + [Item(out, k).value], k + 1, count - 1);
    }
  }

  // The theorems

  /** Decoding the encoding of any valid sequences gives the bytes they denote, with either copy. */
  lemma {:induction false} DecodesEncoding(fast: bool, before: seq<Byte>, out: seq<Byte>, ss: seq<Sequence>, last: seq<Byte>)
    requires AllValid(out, ss)
    ensures Decode(fast, before + Encode(out, ss, last), |before|, out) == Some(Meaning(out, ss, last))
    decreases |ss|
  {
    hide Decode, EncodeSequence, Produce;
    var src := before + Encode(out, ss, last);
    if ss == [] {
      DecodesLast(fast, before, out, last);
    } else {
      var s := ss[0];
      var rest := Encode(Produce(out, s), ss[1..], last);
      DecodesSequence(fast, before, out, s, rest);
      assert src == before + EncodeSequence(s) + rest;
      DecodesEncoding(fast, before + EncodeSequence(s), Produce(out, s), ss[1..], last);
    }
  }

  lemma DecodesLast(fast: bool, before: seq<Byte>, out: seq<Byte>, last: seq<Byte>)
    ensures Decode(fast, before + ([16 * Nibble(|last|)] + LengthBytes(|last|) + last), |before|, out) == Some(out + last)
  {
    hide Length, LengthBytes, Decode;
    var chain, i := LengthBytes(|last|), |before|;
    var token: Byte := 16 * Nibble(|last|);
    var src := before + ([token] + chain + last);
    assert src == before + [token] + chain + last;
    assert src[i] == token && src[i + 1..i + 1 + |chain|] == chain && src[i + 1 + |chain|..] == last;
    LengthReads(src, i + 1, |last|);
    DecodeEnds(fast, src, i, out, last, i + 1 + |chain|);
  }

  /** The last round: literals up to the end of the block. */
  lemma DecodeEnds(fast: bool, src: seq<Byte>, i: nat, out: seq<Byte>, last: seq<Byte>, j: nat)
    requires i < |src| && j + |last| == |src| && src[j..] == last
    requires Length(src, i + 1, src[i] / 16) == Some((|last|, j))
    ensures Decode(fast, src, i, out) == Some(out + last)
  {
    hide Length, Copy;
    assert Slice(src, j, |src|) == src[j..];
  }

  /** One round of the decoder, given what it reads. */
  lemma DecodeRound(fast: bool, src: seq<Byte>, i: nat, out: seq<Byte>, s: Sequence, j: nat, next: nat)
    requires Valid(out, s) && i < j && j + |s.literals| + 1 < |src|
    requires Length(src, i + 1, src[i] / 16) == Some((|s.literals|, j))
    requires src[j..j + |s.literals|] == s.literals && Offset(src, j + |s.literals|) == s.offset
    requires Length(src, j + |s.literals| + 2, src[i] % 16) == Some((s.length - 4, next))
    ensures Decode(fast, src, i, out) == Decode(fast, src, next, Produce(out, s))
  {
    hide Length, Copy, Matched, Offset;
    CopyMatches(fast, out + s.literals, s.offset, s.length);
    assert Slice(src, j, j + |s.literals|) == s.literals;
  }

  lemma DecodesSequence(fast: bool, before: seq<Byte>, out: seq<Byte>, s: Sequence, rest: seq<Byte>)
    requires Valid(out, s) && rest != []
    ensures Decode(fast, before + EncodeSequence(s) + rest, |before|, out)
            == Decode(fast, before + EncodeSequence(s) + rest, |before + EncodeSequence(s)|, Produce(out, s))
  {
    hide Decode, LengthBytes, Length, Matched;
    var src, i := before + EncodeSequence(s) + rest, |before|;
    var chain, more := LengthBytes(|s.literals|), LengthBytes(s.length - 4);
    var j := i + 1 + |chain|;
    var k := j + |s.literals|;
    SequenceLayout(before, s, rest);
    LengthReads(src, i + 1, |s.literals|);
    LengthReads(src, k + 2, s.length - 4);
    DecodeRound(fast, src, i, out, s, j, k + 2 + |more|);
  }

  /** Where the parts of an encoded sequence are. */
  lemma SequenceLayout(before: seq<Byte>, s: Sequence, rest: seq<Byte>)
    requires s.offset < 0x1_0000 && s.length >= 4
    ensures var src, i := before + EncodeSequence(s) + rest, |before|;
      var chain, more := LengthBytes(|s.literals|), LengthBytes(s.length - 4);
      var j := i + 1 + |chain|;
      var k := j + |s.literals|;
      && |before + EncodeSequence(s)| == k + 2 + |more| <= |src|
      && src[i] / 16 == Nibble(|s.literals|) && src[i] % 16 == Nibble(s.length - 4)
      && src[i + 1..j] == chain && src[j..k] == s.literals && Offset(src, k) == s.offset && src[k + 2..k + 2 + |more|] == more
  {
    hide LengthBytes;
    var src, i := before + EncodeSequence(s) + rest, |before|;
    var chain, more := LengthBytes(|s.literals|), LengthBytes(s.length - 4);
    var token: Byte := 16 * Nibble(|s.literals|) + Nibble(s.length - 4);
    var lo: Byte, hi: Byte := s.offset % 256, s.offset / 256;
    var off: seq<Byte> := [lo, hi];
    assert EncodeSequence(s) == [token] + chain + s.literals + off + more;
    var k := i + 1 + |chain| + |s.literals|;
    assert src == before + [token] + chain + s.literals + off + more + rest;
    assert src[k] == off[0] && src[k + 1] == off[1];
  }

  /** At every match reached, the copy starts inside the output or overlaps its own end. */
  predicate OffsetsInside(src: seq<Byte>, i: nat, out: seq<Byte>)
    decreases |src| - i
  {
    i < |src| ==>
      match Length(src, i + 1, src[i] / 16)
      case None => true
      case Some((lit, j)) =>
        var out1 := out + Slice(src, j, j + lit);
        j + lit + 1 < |src| ==>
          var offset := Offset(src, j + lit);
          match Length(src, j + lit + 2, src[i] % 16)
          case None => true
          case Some((match4, next)) =>
            && (offset <= |out1| || offset < match4 + 4)
            && match SlowCopy(out1, |out1| - offset, match4 + 4)
               case None => true
               case Some(out2) => OffsetsInside(src, next, out2)
  }

  /** On every such block, truncated or malformed ones included, the fast decoder does what the slow one does. */
  lemma {:induction false} FastRefinesSlow(src: seq<Byte>, i: nat, out: seq<Byte>)
    requires OffsetsInside(src, i, out)
    ensures Decode(true, src, i, out) == Decode(false, src, i, out)
    decreases |src| - i
  {
    hide Length, SlowCopy, FastCopy, Slice, Offset;
    if i < |src| && Length(src, i + 1, src[i] / 16).Some? {
      var (lit, j) := Length(src, i + 1, src[i] / 16).value;
      var out1 := out + Slice(src, j, j + lit);
      if j + lit + 1 < |src| && Length(src, j + lit + 2, src[i] % 16).Some? {
        var offset := Offset(src, j + lit);
        var (match4, next) := Length(src, j + lit + 2, src[i] % 16).value;
        CopiesAgree(out1, offset, match4 + 4);
        var copied := SlowCopy(out1, |out1| - offset, match4 + 4);
        if copied.Some? {
          FastRefinesSlow(src, next, copied.value);
        }
      }
    }
  }

  // Truncated blocks

  /** What the first `m` bytes of an encoding decode to: None is the index error. A cut inside a length or an offset is
      one; a cut inside literals gives the shorter output; a cut between sequences, what they produced so far. */
  function CutMeaning(out: seq<Byte>, ss: seq<Sequence>, last: seq<Byte>, m: nat): Option<seq<Byte>>
    requires AllValid(out, ss)
    decreases |ss|
  {
    if m == 0 then Some(out)
    else if ss == [] then CutLiterals(out, last, m)
    else
      var s := ss[0];
      var offset := 1 + |LengthBytes(|s.literals|)| + |s.literals|;
      if m <= offset then CutLiterals(out, s.literals, m)
      else if m < offset + 2 + |LengthBytes(s.length - 4)| then None
      else CutMeaning(Produce(out, s), ss[1..], last, m - (offset + 2 + |LengthBytes(s.length - 4)|))
  }

  /** Cut `m` bytes into a token, the length of its literals, and the literals. */
  function CutLiterals(out: seq<Byte>, literals: seq<Byte>, m: nat): Option<seq<Byte>>
  {
    var start := 1 + |LengthBytes(|literals|)|;
    if m < start then None else Some(out + literals[..if m - start < |literals| then m - start else |literals|])
  }

  /** A length chain that runs into the end of the block. */
  lemma {:induction false} ChainCut(src: seq<Byte>, i: nat, rest: nat, base: nat)
    requires i <= |src| < i + |ChainBytes(rest)| && src[i..] == ChainBytes(rest)[..|src| - i]
    ensures Chain(src, i, base) == None
    decreases rest
  {
    if i < |src| {
      var bytes := ChainBytes(rest);
      assert src[i] == src[i..][0] == bytes[0];
      assert src[i + 1..] == bytes[1..][..|src| - i - 1] by {
        assert src[i + 1..] == src[i..][1..];
      }
      ChainCut(src, i + 1, rest - 255, base + 255);
    }
  }

  lemma LengthCut(src: seq<Byte>, i: nat, length: nat)
    requires i <= |src| < i + |LengthBytes(length)| && src[i..] == LengthBytes(length)[..|src| - i]
    ensures Length(src, i, Nibble(length)) == None
  {
    ChainCut(src, i, length - 15, 15);
  }

  /** A round that ends in an error reading the length of its literals, or with literals up to the end of the block. */
  lemma LastRound(fast: bool, src: seq<Byte>, i: nat, out: seq<Byte>, count: nat, j: nat)
    requires i < |src|
    ensures Length(src, i + 1, src[i] / 16) == None ==> Decode(fast, src, i, out) == None
    ensures Length(src, i + 1, src[i] / 16) == Some((count, j)) && i < j <= |src| <= j + count ==>
      Decode(fast, src, i, out) == Some(out + src[j..])
  {
    hide Copy, Length, Offset;
    if Length(src, i + 1, src[i] / 16) == Some((count, j)) && i < j <= |src| <= j + count {
      assert Slice(src, j, j + count) == src[j..];
    }
  }

  /** The round in which the block ends inside, or right after, the literals or their length. */
  lemma CutInLiterals(fast: bool, src: seq<Byte>, i: nat, out: seq<Byte>, literals: seq<Byte>, m: nat)
    requires 0 < m && i + m == |src| && m <= 1 + |LengthBytes(|literals|)| + |literals|
    requires src[i] / 16 == Nibble(|literals|)
    requires src[i + 1..] == (LengthBytes(|literals|) + literals)[..m - 1]
    ensures Decode(fast, src, i, out) == CutLiterals(out, literals, m)
  {
    hide Decode, LengthBytes, Length;
    var chain := LengthBytes(|literals|);
    var j := i + 1 + |chain|;
    LastRound(fast, src, i, out, |literals|, j);
    if m < 1 + |chain| {
      assert src[i + 1..] == chain[..|src| - (i + 1)];
      LengthCut(src, i + 1, |literals|);
    } else {
      assert src[i + 1..j] == src[i + 1..][..|chain|] == chain;
      LengthReads(src, i + 1, |literals|);
      assert src[j..] == src[i + 1..][|chain|..] == literals[..m - 1 - |chain|];
    }
  }

  /** The round in which the block ends inside the offset or the length of the match. */
  lemma CutInMatch(fast: bool, src: seq<Byte>, i: nat, out: seq<Byte>, s: Sequence, j: nat)
    requires i < j && j + |s.literals| < |src|
    requires Length(src, i + 1, src[i] / 16) == Some((|s.literals|, j))
    requires j + |s.literals| + 1 < |src| ==> Length(src, j + |s.literals| + 2, src[i] % 16) == None
    ensures Decode(fast, src, i, out) == None
  {
    hide Length, Copy, Slice, Offset;
  }

  lemma SequenceParts(s: Sequence)
    requires s.offset < 0x1_0000 && s.length >= 4
    ensures var code, chain, more := EncodeSequence(s), LengthBytes(|s.literals|), LengthBytes(s.length - 4);
      var k := 1 + |chain| + |s.literals|;
      && |code| == k + 2 + |more|
      && code[0] / 16 == Nibble(|s.literals|) && code[0] % 16 == Nibble(s.length - 4)
      && code[1..1 + |chain|] == chain && code[1..k] == chain + s.literals && code[k + 2..] == more
  {
    hide LengthBytes, EncodeSequence, Nibble, Offset;
    var code, chain, more := EncodeSequence(s), LengthBytes(|s.literals|), LengthBytes(s.length - 4);
    var k := 1 + |chain| + |s.literals|;
    SequenceLayout([], s, []);
    assert [] + code + [] == code && [] + code == code;
    SplitSlice(code, 1, 1 + |chain|, k);
    assert code[k + 2..] == code[k + 2..k + 2 + |more|];
  }

  lemma SplitSlice(s: seq<Byte>, a: nat, b: nat, c: nat)
    requires a <= b <= c <= |s|
    ensures s[a..c] == s[a..b] + s[b..c]
  {
  }

  lemma PrefixSlice(before: seq<Byte>, code: seq<Byte>, m: nat, a: nat, b: nat)
    requires a <= b <= m <= |code|
    ensures (before + code[..m])[|before| + a..|before| + b] == code[a..b]
  {
  }

  lemma CutSequence(fast: bool, before: seq<Byte>, out: seq<Byte>, s: Sequence, m: nat)
    requires Valid(out, s) && 0 < m < |EncodeSequence(s)|
    ensures Decode(fast, before + EncodeSequence(s)[..m], |before|, out)
            == if m <= 1 + |LengthBytes(|s.literals|)| + |s.literals| then CutLiterals(out, s.literals, m) else None
  {
    hide Decode, LengthBytes, Length, CutLiterals, EncodeSequence, Nibble;
    var code, i := EncodeSequence(s), |before|;
    var src := before + code[..m];
    var chain, more := LengthBytes(|s.literals|), LengthBytes(s.length - 4);
    SequenceParts(s);
    var k := 1 + |chain| + |s.literals|;
    assert src[i] == code[0];
    if m <= k {
      PrefixSlice(before, code, m, 1, m);
      assert src[i + 1..] == src[i + 1..i + m] == code[1..m] == code[1..k][..m - 1];
      CutInLiterals(fast, src, i, out, s.literals, m);
    } else {
      PrefixSlice(before, code, m, 1, 1 + |chain|);
      LengthReads(src, i + 1, |s.literals|);
      if k + 1 < m {
        PrefixSlice(before, code, m, k + 2, m);
        assert src[i + k + 2..] == src[i + k + 2..i + m] == code[k + 2..m] == code[k + 2..][..m - k - 2];
        LengthCut(src, i + k + 2, s.length - 4);
      }
      CutInMatch(fast, src, i, out, s, i + 1 + |chain|);
    }
  }

  /** Every prefix of every encoding: which cuts raise the index error, and what the others give. */
  lemma {:induction false} TruncatedDecodes(fast: bool, before: seq<Byte>, out: seq<Byte>, ss: seq<Sequence>, last: seq<Byte>, m: nat)
    requires AllValid(out, ss) && m <= |Encode(out, ss, last)|
    ensures Decode(fast, before + Encode(out, ss, last)[..m], |before|, out) == CutMeaning(out, ss, last, m)
    decreases |ss|
  {
    hide EncodeSequence, Produce, LengthBytes, Length, Copy, Slice, CutLiterals;
    var all := Encode(out, ss, last);
    if m == 0 {
      assert all[..0] == [];
    } else if ss == [] {
      CutLast(fast, before, out, last, m);
    } else {
      var s := ss[0];
      var code, rest := EncodeSequence(s), Encode(Produce(out, s), ss[1..], last);
      CodeLength(s);
      if m < |code| {
        CutSequence(fast, before, out, s, m);
        assert all[..m] == code[..m];
      } else if m == |code| {
        WholeSequence(fast, before, out, s);
        assert all[..m] == code;
      } else {
        var tail := rest[..m - |code|];
        assert all[..m] == code + tail && before + all[..m] == before + code + tail;
        DecodesSequence(fast, before, out, s, tail);
        TruncatedDecodes(fast, before + code, Produce(out, s), ss[1..], last, m - |code|);
      }
    }
  }

  lemma CodeLength(s: Sequence)
    requires s.offset < 0x1_0000 && s.length >= 4
    ensures |EncodeSequence(s)| == 1 + |LengthBytes(|s.literals|)| + |s.literals| + 2 + |LengthBytes(s.length - 4)|
  {
    hide LengthBytes;
  }

  lemma CutLast(fast: bool, before: seq<Byte>, out: seq<Byte>, last: seq<Byte>, m: nat)
    requires 0 < m <= |[16 * Nibble(|last|)] + LengthBytes(|last|) + last|
    ensures Decode(fast, before + ([16 * Nibble(|last|)] + LengthBytes(|last|) + last)[..m], |before|, out) == CutLiterals(out, last, m)
  {
    hide Decode, LengthBytes, Length, CutLiterals;
    var token: Byte := 16 * Nibble(|last|);
    var all := [token] + LengthBytes(|last|) + last;
    var src := before + all[..m];
    assert all == [token] + (LengthBytes(|last|) + last);
    assert src[|before|] == token && src[|before| + 1..] == (LengthBytes(|last|) + last)[..m - 1];
    CutInLiterals(fast, src, |before|, out, last, m);
  }

  /** A block that ends after a sequence, with no last literals. */
  lemma WholeSequence(fast: bool, before: seq<Byte>, out: seq<Byte>, s: Sequence)
    requires Valid(out, s)
    ensures Decode(fast, before + EncodeSequence(s), |before|, out) == Some(Produce(out, s))
  {
    hide LengthBytes, Length, Matched, EncodeSequence;
    var src, i := before + EncodeSequence(s), |before|;
    var chain, more := LengthBytes(|s.literals|), LengthBytes(s.length - 4);
    var j := i + 1 + |chain|;
    var k := j + |s.literals|;
    SequenceLayout(before, s, []);
    assert before + EncodeSequence(s) + [] == src;
    LengthReads(src, i + 1, |s.literals|);
    LengthReads(src, k + 2, s.length - 4);
    DecodeRound(fast, src, i, out, s, j, k + 2 + |more|);
  }
}

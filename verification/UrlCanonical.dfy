/** What URL normalization is for: it keeps the meaning of the URL, leaves no unreserved byte
    encoded, changes nothing the second time, and sends two URLs to the same text exactly when
    they differ only in how unreserved bytes are written. Each law is proved on well-formed URLs;
    the first three are also characterised on every byte string, because on malformed input a
    stray '%' can meet digits that decoding uncovers. */
module UrlCanonical {
  import opened Wrappers
  import opened UrlNormalization

  function PercentDecode(s: seq<Byte>): seq<Byte> {
    if s == [] then []
    else if EscapeAt(s, 0) then [EscapedByte(s, 0)] + PercentDecode(s[3..])
    else [s[0]] + PercentDecode(s[1..])
  }

  predicate WellFormed(s: seq<Byte>) {
    forall i :: 0 <= i < |s| && s[i] == PERCENT ==> EscapeAt(s, i)
  }

  predicate EncodesUnreserved(s: seq<Byte>) {
    exists i :: 0 <= i < |s| && UnreservedEscapeAt(s, i)
  }

  // The hex digit written at the head of s, plainly or as an escape, and its length in s.
  function HexToken(s: seq<Byte>): (r: Option<(Byte, nat)>)
    ensures r.Some? ==> r.value.0 < 16 && 0 < r.value.1 <= |s|
  {
    if s != [] && IsHex(s[0]) then Some((HexValue(s[0]).value, 1))
    else if UnreservedEscapeAt(s, 0) && IsHex(EscapedByte(s, 0)) then Some((HexValue(EscapedByte(s, 0)).value, 3))
    else None
  }

  // A '%' at the head of s that starts no escape as written, but will once the digits that
  // follow it are decoded; the byte that new escape stands for.
  function MaskedEscape(s: seq<Byte>): Option<Byte> {
    if s == [] || s[0] != PERCENT || EscapeAt(s, 0) then None
    else
      match HexToken(s[1..])
      case None => None
      case Some((high, n)) =>
        match HexToken(s[1 + n..])
        case None => None
        case Some((low, _)) => Some(16 * high + low)
  }

  predicate Masks(s: seq<Byte>) {
    exists i :: 0 <= i < |s| && MaskedEscape(s[i..]).Some?
  }

  predicate MasksUnreserved(s: seq<Byte>) {
    exists i :: 0 <= i < |s| && MaskedEscape(s[i..]).Some? && IsUnreserved(MaskedEscape(s[i..]).value)
  }

  lemma WellFormedMasksNothing(s: seq<Byte>)
    requires WellFormed(s)
    ensures !Masks(s) && !MasksUnreserved(s)
  {
    forall i | 0 <= i < |s|
      ensures MaskedEscape(s[i..]).None?
    {
      if s[i] == PERCENT {
        assert EscapeAt(s, i);
      }
    }
  }

  // Both "somewhere in s" predicates, unrolled one position.
  lemma {:induction false} MasksTail(s: seq<Byte>)
    requires s != []
    ensures Masks(s) <==> MaskedEscape(s).Some? || Masks(s[1..])
    ensures MasksUnreserved(s) <==>
            (MaskedEscape(s).Some? && IsUnreserved(MaskedEscape(s).value)) || MasksUnreserved(s[1..])
  {
    var t := s[1..];
    assert s[0..] == s;
    forall i | 0 <= i < |t|
      ensures t[i..] == s[i + 1..]
    {}
    forall i | 0 < i < |s|
      ensures s[i..] == t[i - 1..]
    {}
  }

  lemma EncodesTail(c: Byte, t: seq<Byte>)
    ensures EncodesUnreserved([c] + t) <==> UnreservedEscapeAt([c] + t, 0) || EncodesUnreserved(t)
  {
    var s := [c] + t;
    forall i | 0 <= i < |t|
      ensures UnreservedEscapeAt(t, i) == UnreservedEscapeAt(s, i + 1)
    {}
    if EncodesUnreserved(t) {
      var i :| 0 <= i < |t| && UnreservedEscapeAt(t, i);
      assert UnreservedEscapeAt(s, i + 1);
    }
    if EncodesUnreserved(s) && !UnreservedEscapeAt(s, 0) {
      var i :| 0 <= i < |s| && UnreservedEscapeAt(s, i);
      assert UnreservedEscapeAt(t, i - 1);
    }
  }

  lemma EncodesAfterReserved(e: seq<Byte>, t: seq<Byte>)
    requires |e| == 3 && EscapeAt(e, 0) && !UnreservedEscapeAt(e, 0)
    ensures EncodesUnreserved(e + t) <==> EncodesUnreserved(t)
  {
    EncodesTail(e[2], t);
    EncodesTail(e[1], [e[2]] + t);
    EncodesTail(e[0], [e[1]] + ([e[2]] + t));
    assert e + t == [e[0]] + ([e[1]] + ([e[2]] + t));
  }

  // A '%' that starts no escape: normalization makes it start one exactly when it is masked.
  lemma StrayPercent(s: seq<Byte>)
    requires s != [] && s[0] == PERCENT && !EscapeAt(s, 0)
    ensures Normalize(s) == [PERCENT] + Normalize(s[1..])
    ensures EscapeAt(Normalize(s), 0) <==> MaskedEscape(s).Some?
    ensures MaskedEscape(s).Some? ==> EscapedByte(Normalize(s), 0) == MaskedEscape(s).value
  {}

  lemma {:induction false} PlainByte(s: seq<Byte>)
    requires s != [] && s[0] != PERCENT
    ensures Normalize(s) == [s[0]] + Normalize(s[1..])
    ensures Masks(s) <==> Masks(s[1..])
    ensures MasksUnreserved(s) <==> MasksUnreserved(s[1..])
  {
    MasksTail(s);
  }

  // An escape that is not of an unreserved byte is copied through.
  lemma ReservedEscape(s: seq<Byte>)
    requires EscapeAt(s, 0) && !UnreservedEscapeAt(s, 0)
    ensures Normalize(s) == s[..3] + Normalize(s[3..])
    ensures Masks(s) <==> Masks(s[3..])
    ensures MasksUnreserved(s) <==> MasksUnreserved(s[3..])
  {
    var t := s[1..];
    var u := t[1..];
    assert u[1..] == s[3..];
    MasksTail(s);
    PlainByte(t);
    PlainByte(u);
    assert Normalize(s) == [s[0]] + ([s[1]] + ([s[2]] + Normalize(s[3..])));
  }

  lemma UnreservedEscape(s: seq<Byte>)
    requires UnreservedEscapeAt(s, 0)
    ensures Normalize(s) == [EscapedByte(s, 0)] + Normalize(s[3..])
    ensures Masks(s) <==> Masks(s[3..])
    ensures MasksUnreserved(s) <==> MasksUnreserved(s[3..])
  {
    var t := s[1..];
    var u := t[1..];
    assert u[1..] == s[3..];
    MasksTail(s);
    MasksTail(t);
    MasksTail(u);
  }

  /** The escape of an unreserved byte, with digits in whatever case, becomes that byte; the escape of
      any other byte is kept as it is. */
  lemma EscapeNormalizes(b: Byte, upper: (bool, bool), rest: seq<Byte>)
    ensures Normalize(Escape(b, upper) + rest) ==
            (if IsUnreserved(b) then [b] else Escape(b, upper)) + Normalize(rest)
    ensures PercentDecode(Escape(b, upper) + rest) == [b] + PercentDecode(rest)
  {
    var e := Escape(b, upper);
    var s := e + rest;
    assert EscapeAt(s, 0) && EscapedByte(s, 0) == b && s[3..] == rest && s[..3] == e;
    if IsUnreserved(b) {
      UnreservedEscape(s);
    } else {
      ReservedEscape(s);
    }
    DecodeEscape(e, rest);
  }

  lemma DecodeHead(c: Byte, t: seq<Byte>)
    requires c != PERCENT
    ensures PercentDecode([c] + t) == [c] + PercentDecode(t)
  {
    assert ([c] + t)[1..] == t;
  }

  lemma DecodeEscape(e: seq<Byte>, t: seq<Byte>)
    requires |e| == 3 && EscapeAt(e, 0)
    ensures PercentDecode(e + t) == [EscapedByte(e, 0)] + PercentDecode(t)
  {
    assert (e + t)[3..] == t;
  }

  lemma DecodingStray(s: seq<Byte>)
    requires s != [] && s[0] == PERCENT && !EscapeAt(s, 0)
    ensures MaskedEscape(s).Some? ==>
              |PercentDecode(Normalize(s))| == |PercentDecode(Normalize(s[1..]))| - 1
    ensures MaskedEscape(s).None? ==>
              PercentDecode(Normalize(s)) == [PERCENT] + PercentDecode(Normalize(s[1..]))
  {
    StrayPercent(s);
    var n := Normalize(s);
    var m := Normalize(s[1..]);
    assert n[1..] == m;
    if MaskedEscape(s).Some? {
      var rest := n[3..];
      assert m == [n[1]] + ([n[2]] + rest);
      DecodeHead(n[1], [n[2]] + rest);
      DecodeHead(n[2], rest);
    }
  }

  // What normalization does to the decoded text.
  predicate Measured(s: seq<Byte>) {
    if Masks(s) then |PercentDecode(Normalize(s))| < |PercentDecode(s)|
    else PercentDecode(Normalize(s)) == PercentDecode(s)
  }

  lemma MeasuredEscape(s: seq<Byte>)
    requires EscapeAt(s, 0) && Measured(s[3..])
    ensures Measured(s)
  {
    if UnreservedEscapeAt(s, 0) {
      UnreservedEscape(s);
      DecodeHead(EscapedByte(s, 0), Normalize(s[3..]));
    } else {
      ReservedEscape(s);
      DecodeEscape(s[..3], Normalize(s[3..]));
    }
  }

  lemma MeasuredPlain(s: seq<Byte>)
    requires s != [] && s[0] != PERCENT && Measured(s[1..])
    ensures Measured(s)
  {
    PlainByte(s);
    DecodeHead(s[0], Normalize(s[1..]));
  }

  lemma MeasuredStray(s: seq<Byte>)
    requires s != [] && s[0] == PERCENT && !EscapeAt(s, 0) && Measured(s[1..])
    ensures Measured(s)
  {
    MasksTail(s);
    DecodingStray(s);
  }

  lemma {:induction false} DecodingMeasure(s: seq<Byte>)
    ensures Measured(s)
    decreases |s|
  {
    if s == [] {
      assert !Masks(s);
    } else if EscapeAt(s, 0) {
      DecodingMeasure(s[3..]);
      MeasuredEscape(s);
    } else if s[0] != PERCENT {
      DecodingMeasure(s[1..]);
      MeasuredPlain(s);
    } else {
      DecodingMeasure(s[1..]);
      MeasuredStray(s);
    }
  }

  /** Decoding the normalized URL gives what decoding the URL gives, exactly when no stray '%'
      masks an escape. */
  lemma MeaningPreserved(s: seq<Byte>)
    ensures PercentDecode(Normalize(s)) == PercentDecode(s) <==> !Masks(s)
    ensures WellFormed(s) ==> PercentDecode(Normalize(s)) == PercentDecode(s)
  {
    DecodingMeasure(s);
    if WellFormed(s) {
      WellFormedMasksNothing(s);
    }
  }

  /** No unreserved byte stays encoded, exactly when no stray '%' masks an escape of one. */
  lemma {:induction false} NothingLeftEncoded(s: seq<Byte>)
    ensures EncodesUnreserved(Normalize(s)) <==> MasksUnreserved(s)
    ensures WellFormed(s) ==> !EncodesUnreserved(Normalize(s))
    decreases |s|
  {
    if WellFormed(s) {
      WellFormedMasksNothing(s);
    }
    if s == [] {
      assert !MasksUnreserved(s);
    } else if UnreservedEscapeAt(s, 0) {
      UnreservedEscape(s);
      NothingLeftEncoded(s[3..]);
      EncodesTail(EscapedByte(s, 0), Normalize(s[3..]));
    } else if EscapeAt(s, 0) {
      ReservedEscape(s);
      NothingLeftEncoded(s[3..]);
      EncodesAfterReserved(s[..3], Normalize(s[3..]));
    } else if s[0] != PERCENT {
      PlainByte(s);
      NothingLeftEncoded(s[1..]);
      EncodesTail(s[0], Normalize(s[1..]));
    } else {
      MasksTail(s);
      StrayPercent(s);
      NothingLeftEncoded(s[1..]);
      EncodesTail(PERCENT, Normalize(s[1..]));
    }
  }

  lemma {:induction false} NormalizeShrinks(s: seq<Byte>)
    ensures |Normalize(s)| <= |s|
    ensures EncodesUnreserved(s) ==> |Normalize(s)| < |s|
    ensures !EncodesUnreserved(s) ==> Normalize(s) == s
    decreases |s|
  {
    if s != [] {
      if UnreservedEscapeAt(s, 0) {
        NormalizeShrinks(s[3..]);
      } else {
        NormalizeShrinks(s[1..]);
        EncodesTail(s[0], s[1..]);
        assert [s[0]] + s[1..] == s;
      }
    }
  }

  /** A second normalization changes nothing, exactly when no stray '%' masks an escape of an
      unreserved byte. */
  lemma Idempotent(s: seq<Byte>)
    ensures Normalize(Normalize(s)) == Normalize(s) <==> !MasksUnreserved(s)
    ensures WellFormed(s) ==> Normalize(Normalize(s)) == Normalize(s)
  {
    NothingLeftEncoded(s);
    NormalizeShrinks(Normalize(s));
  }

  function Bytes(s: string): seq<Byte>
    requires forall i :: 0 <= i < |s| ==> s[i] as int < 256
  {
    seq<Byte>(|s|, i requires 0 <= i < |s| => s[i] as int)
  }

  lemma NormalizeExample()
    ensures Normalize(Bytes("%%341")) == Bytes("%41")
    ensures Normalize(Bytes("%41")) == Bytes("A")
    ensures UnreservedEscapeAt(Bytes("%41"), 0)
  {
    assert Bytes("%%341")[1..] == Bytes("%341");
    assert Bytes("%341")[3..] == Bytes("1");
    assert Bytes("1")[1..] == [] && Bytes("%41")[3..] == [];
  }

  lemma EncodedMeansMasked(s: seq<Byte>)
    requires UnreservedEscapeAt(Normalize(s), 0)
    ensures MasksUnreserved(s)
  {
    NothingLeftEncoded(s);
  }

  // "%%341" normalizes to "%41", and that to "A".
  lemma MalformedIsNotIdempotent()
    ensures Normalize(Bytes("%%341")) == Bytes("%41")
    ensures Normalize(Bytes("%41")) == Bytes("A")
    ensures MasksUnreserved(Bytes("%%341"))
  {
    NormalizeExample();
    EncodedMeansMasked(Bytes("%%341"));
  }

  // t is s with one escape of an unreserved byte written plainly.
  ghost predicate DecodesOne(s: seq<Byte>, t: seq<Byte>) {
    exists i :: 0 <= i < |s| && DecodesAt(s, t, i)
  }

  predicate DecodesAt(s: seq<Byte>, t: seq<Byte>, i: nat) {
    UnreservedEscapeAt(s, i) && t == s[..i] + [EscapedByte(s, i)] + s[i + 3..]
  }

  ghost predicate Linked(s: seq<Byte>, t: seq<Byte>) {
    DecodesOne(s, t) || DecodesOne(t, s)
  }

  ghost predicate IsPath(path: seq<seq<Byte>>) {
    && (forall k :: 0 <= k < |path| ==> WellFormed(path[k]))
    && (forall j, k {:trigger path[j], path[k]} :: 0 <= j < k == j + 1 < |path| ==> Linked(path[j], path[k]))
  }

  // s turns into t by decoding or encoding unreserved bytes one at a time.
  ghost predicate DifferOnlyInUnreserved(s: seq<Byte>, t: seq<Byte>) {
    exists path: seq<seq<Byte>> :: |path| > 0 && path[0] == s && path[|path| - 1] == t && IsPath(path)
  }

  lemma DecodesAtWellFormed(s: seq<Byte>, t: seq<Byte>, i: nat)
    requires WellFormed(s) && DecodesAt(s, t, i)
    ensures WellFormed(t) && |t| == |s| - 2
  {
    forall k | 0 <= k < |t| && t[k] == PERCENT
      ensures EscapeAt(t, k)
    {
      if k < i {
        assert s[k] == PERCENT && EscapeAt(s, k);
      } else {
        assert s[k + 2] == PERCENT && EscapeAt(s, k + 2);
      }
    }
  }

  lemma WellFormedTail(s: seq<Byte>, n: nat)
    requires WellFormed(s) && n <= |s|
    ensures WellFormed(s[n..])
  {
    var u := s[n..];
    forall k | 0 <= k < |u| && u[k] == PERCENT
      ensures EscapeAt(u, k)
    {
      assert u[k] == s[n + k];
      assert EscapeAt(s, n + k);
      assert u[k + 1] == s[n + k + 1] && u[k + 2] == s[n + k + 2];
    }
  }

  lemma DecodesAtTail(s: seq<Byte>, t: seq<Byte>, i: nat, n: nat)
    requires WellFormed(s) && DecodesAt(s, t, i) && n <= i
    requires n == if UnreservedEscapeAt(s, 0) then 3 else 1
    ensures WellFormed(s[n..]) && DecodesAt(s[n..], t[n..], i - n)
    ensures s[0] == t[0] && UnreservedEscapeAt(s, 0) == UnreservedEscapeAt(t, 0)
    ensures UnreservedEscapeAt(s, 0) ==> EscapedByte(s, 0) == EscapedByte(t, 0)
  {
    assert s[0] == PERCENT ==> EscapeAt(s, 0) && i >= 3;
    var u := s[n..];
    WellFormedTail(s, n);
    assert t[n..] == u[..i - n] + [EscapedByte(s, i)] + u[i - n + 3..];
  }

  lemma {:induction false} DecodesAtKeepsNormalForm(s: seq<Byte>, t: seq<Byte>, i: nat)
    requires WellFormed(s) && DecodesAt(s, t, i)
    ensures Normalize(s) == Normalize(t)
    decreases |s|
  {
    if i == 0 {
      assert t[1..] == s[3..];
    } else {
      assert s[0] == PERCENT ==> EscapeAt(s, 0) && i >= 3;
      var n := if UnreservedEscapeAt(s, 0) then 3 else 1;
      DecodesAtTail(s, t, i, n);
      DecodesAtKeepsNormalForm(s[n..], t[n..], i - n);
    }
  }

  lemma {:induction false} PathKeepsNormalForm(path: seq<seq<Byte>>)
    requires |path| > 0 && IsPath(path)
    ensures Normalize(path[0]) == Normalize(path[|path| - 1])
    decreases |path|
  {
    if |path| > 1 {
      var a, b := path[0], path[1];
      assert Linked(a, b);
      if DecodesOne(a, b) {
        var i :| 0 <= i < |a| && DecodesAt(a, b, i);
        DecodesAtKeepsNormalForm(a, b, i);
      } else {
        var i :| 0 <= i < |b| && DecodesAt(b, a, i);
        DecodesAtKeepsNormalForm(b, a, i);
      }
      PathKeepsNormalForm(path[1..]);
    }
  }

  lemma JoinPaths(a: seq<seq<Byte>>, b: seq<seq<Byte>>)
    requires |a| > 0 && |b| > 0 && IsPath(a) && IsPath(b) && a[|a| - 1] == b[0]
    ensures var path := a + b[1..]; IsPath(path) && path[|path| - 1] == b[|b| - 1]
  {
    var path := a + b[1..];
    forall j, k | 0 <= j < k == j + 1 < |path|
      ensures Linked(path[j], path[k])
    {
      if j < |a| - 1 {
        assert Linked(a[j], a[k]);
      } else {
        assert Linked(b[j - |a| + 1], b[k - |a| + 1]);
      }
    }
  }

  lemma Concatenated(s: seq<Byte>, t: seq<Byte>, u: seq<Byte>)
    requires DifferOnlyInUnreserved(s, t) && DifferOnlyInUnreserved(t, u)
    ensures DifferOnlyInUnreserved(s, u)
  {
    var a: seq<seq<Byte>> :| |a| > 0 && a[0] == s && a[|a| - 1] == t && IsPath(a);
    var b: seq<seq<Byte>> :| |b| > 0 && b[0] == t && b[|b| - 1] == u && IsPath(b);
    JoinPaths(a, b);
    var joined := a + b[1..];
    assert joined[0] == s && joined[|joined| - 1] == u;
  }

  lemma OneLink(s: seq<Byte>, t: seq<Byte>)
    requires WellFormed(s) && WellFormed(t) && Linked(s, t)
    ensures DifferOnlyInUnreserved(s, t)
  {
    var path := [s, t];
    assert IsPath(path) && path[0] == s && path[|path| - 1] == t;
  }

  lemma {:induction false} DiffersFromNormalForm(s: seq<Byte>)
    requires WellFormed(s)
    ensures DifferOnlyInUnreserved(s, Normalize(s))
    decreases |s|
  {
    if EncodesUnreserved(s) {
      var i :| 0 <= i < |s| && UnreservedEscapeAt(s, i);
      var t := s[..i] + [EscapedByte(s, i)] + s[i + 3..];
      assert DecodesAt(s, t, i);
      DecodesAtWellFormed(s, t, i);
      DecodesAtKeepsNormalForm(s, t, i);
      DiffersFromNormalForm(t);
      OneLink(s, t);
      Concatenated(s, t, Normalize(s));
    } else {
      NormalizeShrinks(s);
      var path := [s];
      assert IsPath(path) && path[0] == s;
    }
  }

  lemma {:induction false} DiffersBack(path: seq<seq<Byte>>)
    requires |path| > 0 && IsPath(path)
    ensures DifferOnlyInUnreserved(path[|path| - 1], path[0])
    decreases |path|
  {
    if |path| > 1 {
      assert Linked(path[0], path[1]);
      DiffersBack(path[1..]);
      OneLink(path[1], path[0]);
      Concatenated(path[|path| - 1], path[1], path[0]);
    }
  }

  /** The canonical-form theorem. */
  lemma SameNormalForm(s: seq<Byte>, t: seq<Byte>)
    requires WellFormed(s) && WellFormed(t)
    ensures Normalize(s) == Normalize(t) <==> DifferOnlyInUnreserved(s, t)
  {
    if Normalize(s) == Normalize(t) {
      DiffersFromNormalForm(s);
      DiffersFromNormalForm(t);
      var path: seq<seq<Byte>> :| |path| > 0 && path[0] == t && path[|path| - 1] == Normalize(t) && IsPath(path);
      DiffersBack(path);
      Concatenated(s, Normalize(s), t);
    }
    if DifferOnlyInUnreserved(s, t) {
      var path: seq<seq<Byte>> :| |path| > 0 && path[0] == s && path[|path| - 1] == t && IsPath(path);
      PathKeepsNormalForm(path);
    }
  }
}

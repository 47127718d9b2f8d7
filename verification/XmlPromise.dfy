/** What the reader's comment promises, and the inputs on which the reader keeps it. */
module XmlPromise {
  import opened Utf8
  import opened XmlSafeReader
  import opened XmlEscape

  /** Every control is replaced by its escape, every other rune is copied. */
  function Promised(b: seq<Byte>): seq<Byte> {
    if b == [] then []
    else
      var (r, n) := DecodeRune(b);
      (if IsControl(r) then EscapeText(r) else b[..n]) + Promised(b[n..])
  }

  predicate ControlByte(b: Byte) {
    b < 0x20 || b == 0x7F
  }

  /** The controls that count as spaces, of one byte. */
  predicate SpaceByte(b: Byte) {
    0x09 <= b <= 0x0D
  }

  /** A two-byte control starts here. */
  predicate PairHere(b: seq<Byte>) {
    |b| >= 2 && b[0] == 0xC2 && 0x80 <= b[1] <= 0x9F
  }

  /** No one-byte control that counts as a space, and no two-byte control at all. */
  ghost predicate Clean(b: seq<Byte>) {
    && (forall i :: 0 <= i < |b| ==> !SpaceByte(b[i]))
    && (forall i :: 0 <= i < |b| ==> !PairHere(b[i..]))
  }

  lemma CleanCons(b: seq<Byte>)
    requires b != []
    ensures Clean(b) <==> !SpaceByte(b[0]) && !PairHere(b) && Clean(b[1..])
  {
    var t := b[1..];
    assert b[0..] == b;
    assert forall i :: 0 <= i < |t| ==> t[i..] == b[i + 1..] && t[i] == b[i + 1];
    if !SpaceByte(b[0]) && !PairHere(b) && Clean(t) {
      forall i | 0 <= i < |b| ensures !SpaceByte(b[i]) && !PairHere(b[i..]) {
        if i > 0 {
          assert !SpaceByte(t[i - 1]) && !PairHere(t[i - 1..]);
        }
      }
    }
    if Clean(b) {
      forall i | 0 <= i < |t| ensures !SpaceByte(t[i]) && !PairHere(t[i..]) {
        assert !SpaceByte(b[i + 1]) && !PairHere(b[i + 1..]);
      }
      assert !PairHere(b[0..]);
    }
  }

  // ----- the promise, byte by byte

  function PromisedBytes(b: seq<Byte>): seq<Byte> {
    if b == [] then []
    else if ControlByte(b[0]) then EscapeText(b[0] as int) + PromisedBytes(b[1..])
    else if PairHere(b) then EscapeText(b[1] as int) + PromisedBytes(b[2..])
    else [b[0]] + PromisedBytes(b[1..])
  }

  lemma ControlIsLocal(b: seq<Byte>)
    requires b != []
    ensures var (r, n) := DecodeRune(b);
            (IsControl(r) <==> ControlByte(b[0]) || PairHere(b))
            && (ControlByte(b[0]) ==> (r, n) == (b[0] as int, 1))
            && (PairHere(b) ==> (r, n) == (b[1] as int, 2))
            && (forall i :: 1 <= i < n ==> IsTail(b[i]))
  {
  }

  lemma {:induction false} TailsAreCopied(b: seq<Byte>, n: nat)
    requires n <= |b| && forall i :: 0 <= i < n ==> IsTail(b[i])
    ensures PromisedBytes(b) == b[..n] + PromisedBytes(b[n..])
  {
    if n == 0 {
      assert b[0..] == b;
    } else {
      TailsAreCopied(b[1..], n - 1);
      assert b[1..][n - 1..] == b[n..];
      assert [b[0]] + b[1..][..n - 1] == b[..n];
    }
  }

  lemma CopiedRune(b: seq<Byte>, n: nat)
    requires 1 <= n <= |b| && !ControlByte(b[0]) && !PairHere(b)
    requires forall i :: 1 <= i < n ==> IsTail(b[i])
    ensures PromisedBytes(b) == b[..n] + PromisedBytes(b[n..])
  {
    assert PromisedBytes(b) == [b[0]] + PromisedBytes(b[1..]);
    RestOfRune(b, n);
    ConsSplit(b, n, PromisedBytes(b[n..]));
  }

  lemma RestOfRune(b: seq<Byte>, n: nat)
    requires 1 <= n <= |b| && forall i :: 1 <= i < n ==> IsTail(b[i])
    ensures PromisedBytes(b[1..]) == b[1..][..n - 1] + PromisedBytes(b[n..])
  {
    hide PromisedBytes;
    TailsAreCopied(b[1..], n - 1);
    assert b[1..][n - 1..] == b[n..];
  }

  lemma ConsSplit(b: seq<Byte>, n: nat, tail: seq<Byte>)
    requires 1 <= n <= |b|
    ensures [b[0]] + (b[1..][..n - 1] + tail) == b[..n] + tail
  {
  }

  lemma {:induction false} PromisedByByte(b: seq<Byte>)
    ensures Promised(b) == PromisedBytes(b)
    decreases |b|
  {
    hide DecodeRune, IsControl, EscapeText, ControlByte, PairHere;
    if b != [] {
      ControlIsLocal(b);
      var (r, n) := DecodeRune(b);
      PromisedByByte(b[n..]);
      if !IsControl(r) {
        CopiedRune(b, n);
      }
    }
  }

  // ----- the reader, byte by byte

  /** Escaping in blocks, with k bytes of the current block left: the look-ahead of one byte
      stops at the block's edge. */
  function EscapeFrom(b: seq<Byte>, k: nat): seq<Byte>
    requires 1 <= k <= BLOCK
  {
    if b == [] then []
    else FirstByte(if k == 1 then b[..1] else b) + EscapeFrom(b[1..], NextInBlock(k))
  }

  function NextInBlock(k: nat): (next: nat)
    requires 1 <= k <= BLOCK
    ensures 1 <= next <= BLOCK
  {
    if k == 1 then BLOCK else k - 1
  }

  lemma OneByte(one: seq<Byte>)
    requires |one| == 1
    ensures EscapeBytes(one) == FirstByte(one)
  {
    hide FirstByte;
    assert one[1..] == [];
    assert EscapeBytes(one) == FirstByte(one) + [];
  }

  lemma LastOfBlock(b: seq<Byte>)
    requires b != []
    ensures EscapeFrom(b, 1) == EscapeBytes(b[..1]) + EscapeFrom(b[1..], BLOCK)
    ensures |b| == 1 ==> EscapeFrom(b, 1) == EscapeBytes(b)
  {
    hide EscapeBytes, FirstByte;
    OneByte(b[..1]);
    if |b| == 1 {
      assert b[..1] == b && b[1..] == [];
      assert EscapeFrom(b[1..], BLOCK) == [];
    }
  }

  lemma {:induction false} RestOfBlock(b: seq<Byte>, k: nat)
    requires 1 <= k <= BLOCK
    ensures |b| <= k ==> EscapeFrom(b, k) == EscapeBytes(b)
    ensures k <= |b| ==> EscapeFrom(b, k) == EscapeBytes(b[..k]) + EscapeFrom(b[k..], BLOCK)
  {
    hide FirstByte;
    if b != [] && k == 1 {
      LastOfBlock(b);
    } else if b != [] {
      RestOfBlock(b[1..], k - 1);
      if k <= |b| {
        WithinBlock(b, k);
      }
    }
  }

  lemma WithinBlock(b: seq<Byte>, k: nat)
    requires 2 <= k <= |b|
    ensures EscapeBytes(b[..k]) == FirstByte(b) + EscapeBytes(b[1..][..k - 1])
    ensures b[1..][k - 1..] == b[k..]
  {
    assert b[..k][1..] == b[1..][..k - 1];
    assert FirstByte(b[..k]) == FirstByte(b);
  }

  lemma {:induction false} BlocksByByte(b: seq<Byte>)
    ensures EscapeBlocks(b) == EscapeFrom(b, BLOCK)
    decreases |b|
  {
    if b != [] {
      var n := BlockSize(b);
      RestOfBlock(b, BLOCK);
      EscapeByByte(b[..n]);
      BlocksByByte(b[n..]);
      if |b| < BLOCK {
        assert b[..n] == b && b[n..] == [];
      }
    }
  }

  // ----- where they agree

  /** The second byte of a two-byte control, left over, is never made up for later. */
  lemma {:induction false} LeftOverShows(x: Byte, rest: seq<Byte>, k: nat)
    requires 0x80 <= x <= 0x9F && 1 <= k <= BLOCK
    ensures [x] + EscapeFrom(rest, k) != PromisedBytes(rest)
  {
    if rest != [] && rest[0] == x {
      var next := NextInBlock(k);
      LeftOverShows(x, rest[1..], next);
      assert EscapeFrom(rest, k) == [x] + EscapeFrom(rest[1..], next);
      assert PromisedBytes(rest) == [x] + PromisedBytes(rest[1..]);
      SameHead([x], [x] + EscapeFrom(rest[1..], next), PromisedBytes(rest[1..]));
    } else if rest != [] {
      assert PromisedBytes(rest)[0] == 0x5C || PromisedBytes(rest)[0] == rest[0];
    }
  }

  lemma SameHead(head: seq<Byte>, a: seq<Byte>, b: seq<Byte>)
    ensures head + a == head + b <==> a == b
  {
    if head + a == head + b {
      assert a == (head + a)[|head|..] == (head + b)[|head|..] == b;
    }
  }

  /** A two-byte control is never rendered as promised. */
  lemma PairShows(b: seq<Byte>, k: nat)
    requires PairHere(b) && 1 <= k <= BLOCK
    ensures EscapeFrom(b, k) != PromisedBytes(b)
  {
    var text, rest, next := EscapeText(b[1] as int), b[2..], NextInBlock(k);
    assert PromisedBytes(b) == text + PromisedBytes(rest);
    if k > 1 && b[1] != 0x85 {
      var x := b[1];
      assert b[1..][1..] == rest && b[1..][0] == x;
      var after := EscapeFrom(rest, NextInBlock(next));
      assert EscapeFrom(b, k) == text + EscapeFrom(b[1..], next);
      assert EscapeFrom(b[1..], next) == [x] + after;
      LeftOverShows(x, rest, NextInBlock(next));
      SameHead(text, [x] + after, PromisedBytes(rest));
    } else {
      assert EscapeFrom(b, k)[0] == 0xC2;
    }
  }

  lemma {:induction false} AgreeIffClean(b: seq<Byte>, k: nat)
    requires 1 <= k <= BLOCK
    ensures EscapeFrom(b, k) == PromisedBytes(b) <==> Clean(b)
  {
    if b != [] {
      CleanCons(b);
      var t, next := b[1..], NextInBlock(k);
      AgreeIffClean(t, next);
      if PairHere(b) {
        PairShows(b, k);
      } else {
        var head := if ControlByte(b[0]) then EscapeText(b[0] as int) else [b[0]];
        assert PromisedBytes(b) == head + PromisedBytes(t);
        if SpaceByte(b[0]) {
          assert EscapeFrom(b, k)[0] == b[0];
        } else {
          assert EscapeFrom(b, k) == head + EscapeFrom(t, next);
          SameHead(head, EscapeFrom(t, next), PromisedBytes(t));
        }
      }
    }
  }

  /** What the reader yields is what its comment promises exactly on input that holds no byte
      from tab to carriage return and no two-byte control. */
  lemma PromiseKeptIffClean(b: seq<Byte>)
    ensures EscapeBlocks(b) == Promised(b) <==> Clean(b)
  {
    BlocksByByte(b);
    PromisedByByte(b);
    AgreeIffClean(b, BLOCK);
  }

  /** The same for what a caller sees who reads to the end into destinations of at least 256
      bytes. */
  lemma ReadsKeepPromiseIffClean(rawXML: seq<Byte>, sizes: seq<nat>)
    requires forall s :: s in sizes ==> s >= BLOCK
    requires |sizes| >= |EscapeBlocks(rawXML)|
    ensures Reads(View(rawXML, [], []), sizes).0 == Promised(rawXML) <==> Clean(rawXML)
  {
    ReadsYieldEscapedBlocks(rawXML, sizes);
    PromiseKeptIffClean(rawXML);
  }
}

/** What the streaming escaper computes, for every input and every way of reading it. */
module XmlEscape {
  import opened Utf8
  import opened XmlSafeReader

  // ----- escaping looks one byte ahead at most

  /** The code escaped at a control. */
  function LocalCode(b: seq<Byte>): (code: int)
    requires EscapeHere(b)
    ensures 0 <= code < 256
  {
    (if SingleByteControl(b[0]) then b[0] else b[1]) as int
  }

  function FirstByte(b: seq<Byte>): seq<Byte>
    requires b != []
  {
    if EscapeHere(b) then EscapeText(LocalCode(b)) else [b[0]]
  }

  function EscapeBytes(b: seq<Byte>): seq<Byte> {
    if b == [] then [] else FirstByte(b) + EscapeBytes(b[1..])
  }

  ghost predicate NoControlBefore(b: seq<Byte>, c: nat)
    requires c <= |b|
  {
    forall j :: 0 <= j < c ==> !EscapeHere(b[j..])
  }

  lemma NoControlAfterFirst(b: seq<Byte>, c: nat)
    requires 0 < c <= |b| && NoControlBefore(b, c)
    ensures !EscapeHere(b) && NoControlBefore(b[1..], c - 1)
  {
    assert b[0..] == b;
    var t := b[1..];
    forall j | 0 <= j < c - 1 ensures !EscapeHere(t[j..]) {
      assert t[j..] == b[j + 1..];
    }
  }

  lemma {:induction false} CopiedUpTo(b: seq<Byte>, c: nat)
    requires c <= |b| && NoControlBefore(b, c)
    ensures EscapeBytes(b) == b[..c] + EscapeBytes(b[c..])
  {
    hide EscapeHere, NoControlBefore;
    if c == 0 {
      assert b[0..] == b;
    } else {
      NoControlAfterFirst(b, c);
      var t := b[1..];
      CopiedUpTo(t, c - 1);
      assert EscapeBytes(b) == [b[0]] + EscapeBytes(t);
      assert t[c - 1..] == b[c..];
      assert [b[0]] + t[..c - 1] == b[..c];
    }
  }

  /** The rune-by-rune escape can be taken byte by byte. */
  lemma {:induction false} EscapeByByte(b: seq<Byte>)
    ensures Escape(b) == EscapeBytes(b)
    decreases |b|
  {
    if b != [] {
      EscapeIsLocal(b);
      var (r, n) := DecodeRune(b);
      if NeedsEscape(r) {
        EscapeByByte(b[1..]);
      } else {
        EscapeByByte(b[n..]);
        RuneIsCopied(b, n);
      }
    }
  }

  lemma RuneIsCopied(b: seq<Byte>, n: nat)
    requires 1 <= n <= |b| && !EscapeHere(b)
    requires forall i :: 1 <= i < n ==> IsTail(b[i])
    ensures EscapeBytes(b) == b[..n] + EscapeBytes(b[n..])
  {
    forall j | 0 <= j < n ensures !EscapeHere(b[j..]) {
      if j > 0 {
        assert b[j..][0] == b[j];
      } else {
        assert b[0..] == b;
      }
    }
    CopiedUpTo(b, n);
  }

  /** The decoder never steps over a control. */
  lemma {:induction false} NoneBeforeFirst(b: seq<Byte>, i: nat)
    requires i <= |b|
    ensures forall j :: i <= j < FirstControl(b, i) ==> !EscapeHere(b[j..])
    ensures i == 0 ==> NoControlBefore(b, FirstControl(b, 0))
    decreases |b| - i
  {
    if i < |b| {
      EscapeIsLocal(b[i..]);
      var (r, n) := DecodeRune(b[i..]);
      if !NeedsEscape(r) {
        NoneBeforeFirst(b, i + n);
        forall j | i <= j < i + n ensures !EscapeHere(b[j..]) {
          if j > i {
            assert IsTail(b[i..][j - i]);
            assert b[j..][0] == b[j] == b[i..][j - i];
          }
        }
      }
    }
  }

  // ----- one Read

  lemma RefillKeepsRest(v: View)
    requires v.code == []
    ensures Rest(Refill(v)) == Rest(v)
  {
    if v.buf == [] {
      assert Escape(v.buf) == [];
      assert v.inner[BlockSize(v.inner)..] == [] || v.inner != [];
    }
  }

  /** Whether the destination reaches the first control of the buffer. */
  predicate Fits(v: View, size: nat) {
    var w := Refill(v);
    var c := FirstControl(w.buf, 0);
    v.code != [] || c == |w.buf| || c <= size
  }

  lemma BufferSplit(b: seq<Byte>)
    ensures var c := FirstControl(b, 0);
            NoControlBefore(b, c)
            && (c < |b| ==> EscapeBytes(b[c..]) == EscapeText(CodeAt(b, c)) + EscapeBytes(b[c + 1..]))
  {
    var c := FirstControl(b, 0);
    NoneBeforeFirst(b, 0);
    if c < |b| {
      EscapeIsLocal(b[c..]);
      assert b[c..][1..] == b[c + 1..];
    }
  }

  lemma PendingReadIsRight(v: View, size: nat)
    requires v.code != []
    ensures ReadStep(v, size).0 + Rest(ReadStep(v, size).1) == Rest(v)
  {
    hide Escape, EscapeBlocks, Refill, ReadBuffer;
    var (out, after) := ReadStep(v, size);
    assert out + after.code == v.code;
    assert out + Rest(after) == (out + after.code) + Escape(v.buf) + EscapeBlocks(v.inner);
  }

  lemma BufferReadIsRightIffItFits(w: View, size: nat)
    requires w.code == []
    ensures var (out, after) := ReadBuffer(w, size);
            var c := FirstControl(w.buf, 0);
            (out + Rest(after) == Rest(w) <==> c == |w.buf| || c <= size)
            && (size < c < |w.buf| ==> |out + Rest(after)| == |Rest(w)| + 5)
  {
    var c := FirstControl(w.buf, 0);
    BufferSplit(w.buf);
    if c == |w.buf| {
      PlainReadIsRight(w, Min(size, c));
    } else if c <= size {
      ReadToControl(w, c, EscapeText(CodeAt(w.buf, c)), size);
    } else {
      ReadShortOfControl(w, c, EscapeText(CodeAt(w.buf, c)), size);
    }
  }

  lemma PlainReadIsRight(w: View, n: nat)
    requires n <= |w.buf| && NoControlBefore(w.buf, |w.buf|) && w.code == []
    ensures w.buf[..n] + Rest(w.(buf := w.buf[n..])) == Rest(w)
  {
    hide Escape, EscapeBytes, EscapeBlocks;
    assert NoControlBefore(w.buf, n);
    CopiedUpTo(w.buf, n);
    EscapeByByte(w.buf);
    EscapeByByte(w.buf[n..]);
  }

  /** However much of the escape fits now, the rest of it comes next. */
  lemma SplitEscape(a: seq<Byte>, text: seq<Byte>, m: nat, tail: seq<Byte>, more: seq<Byte>)
    requires m <= |text|
    ensures (a + text[..m]) + (text[m..] + tail + more) == (a + (text + tail)) + more
  {
    assert text[..m] + text[m..] == text;
  }

  lemma RestAtControl(w: View, c: nat, text: seq<Byte>)
    requires c < |w.buf| && NoControlBefore(w.buf, c) && w.code == []
    requires EscapeBytes(w.buf[c..]) == text + EscapeBytes(w.buf[c + 1..])
    ensures Rest(w) == (w.buf[..c] + (text + EscapeBytes(w.buf[c + 1..]))) + EscapeBlocks(w.inner)
  {
    CopiedUpTo(w.buf, c);
    EscapeByByte(w.buf);
    var tail := EscapeBytes(w.buf);
    assert [] + tail == tail;
  }

  lemma ReadToControl(w: View, c: nat, text: seq<Byte>, size: nat)
    requires c < |w.buf| && c <= size && NoControlBefore(w.buf, c) && w.code == []
    requires EscapeBytes(w.buf[c..]) == text + EscapeBytes(w.buf[c + 1..])
    ensures var (out, after) := ReadControl(w, c, text, size); out + Rest(after) == Rest(w)
  {
    hide Escape, EscapeBytes, EscapeBlocks;
    RestAtControl(w, c, text);
    var (out, after) := ReadControl(w, c, text, size);
    var m, tail := Min(size - c, |text|), EscapeBytes(w.buf[c + 1..]);
    assert Rest(after) == text[m..] + tail + EscapeBlocks(w.inner) by {
      EscapeByByte(after.buf);
    }
    SplitEscape(w.buf[..c], text, m, tail, EscapeBlocks(w.inner));
  }

  /** A destination that stops short of the control loses the byte at its end and keeps the
      control to be escaped a second time: five bytes too many. */
  lemma ReadShortOfControl(w: View, c: nat, text: seq<Byte>, size: nat)
    requires size < c < |w.buf| && NoControlBefore(w.buf, c) && |text| == 6 && w.code == []
    ensures var (out, after) := ReadControl(w, c, text, size);
            |out + Rest(after)| == |Rest(w)| + 5
  {
    var t, k := w.buf[size + 1..], c - size - 1;
    forall j | 0 <= j < k ensures !EscapeHere(t[j..]) {
      assert t[j..] == w.buf[size + 1 + j..];
    }
    CopiedUpTo(w.buf, c);
    CopiedUpTo(t, k);
    EscapeByByte(w.buf);
    EscapeByByte(t);
    assert t[k..] == w.buf[c..];
  }

  /** A Read hands over the next bytes of the escaped text exactly when its destination is
      long enough to reach the first control in the buffer; otherwise five bytes too many will
      have come in the end. */
  lemma ReadIsRightIffItFits(v: View, size: nat)
    ensures ReadStep(v, size).0 + Rest(ReadStep(v, size).1) == Rest(v) <==> Fits(v, size)
    ensures !Fits(v, size) ==> |ReadStep(v, size).0 + Rest(ReadStep(v, size).1)| == |Rest(v)| + 5
  {
    hide Escape, EscapeBlocks, Rest;
    if v.code != [] {
      PendingReadIsRight(v, size);
    } else {
      RefillKeepsRest(v);
      BufferReadIsRightIffItFits(Refill(v), size);
    }
  }

  /** A Read with room for a byte comes back empty, that is, reports the end of the input,
      only when nothing is left. */
  lemma EofOnlyAtTheEnd(v: View, size: nat)
    requires size > 0
    ensures ReadStep(v, size).0 == [] <==> Rest(v) == []
  {
    if v.code == [] {
      RefillKeepsRest(v);
      var w := Refill(v);
      EscapeByByte(w.buf);
      if w.buf == [] {
        assert w.inner == [];
      }
    }
  }

  // ----- a sequence of Reads

  /** The bytes handed over by Reads into destinations of the given sizes, and what is left. */
  function Reads(v: View, sizes: seq<nat>): (seq<Byte>, View)
    decreases |sizes|
  {
    if sizes == [] then ([], v)
    else
      var (out, after) := ReadStep(v, sizes[0]);
      var (more, end) := Reads(after, sizes[1..]);
      (out + more, end)
  }

  lemma BufferStaysSmall(v: View, size: nat)
    requires |v.buf| <= BLOCK
    ensures |Refill(v).buf| <= BLOCK && |ReadStep(v, size).1.buf| <= BLOCK
  {
  }

  lemma OneReadInOrder(v: View, size: nat)
    requires |v.buf| <= BLOCK <= size
    ensures var (out, after) := ReadStep(v, size);
            out + Rest(after) == Rest(v) && |after.buf| <= BLOCK && (out == [] <==> Rest(v) == [])
  {
    BufferStaysSmall(v, size);
    ReadIsRightIffItFits(v, size);
    EofOnlyAtTheEnd(v, size);
  }

  lemma {:induction false} ReadsInOrder(v: View, sizes: seq<nat>)
    requires |v.buf| <= BLOCK
    requires forall s :: s in sizes ==> s >= BLOCK
    ensures Reads(v, sizes).0 + Rest(Reads(v, sizes).1) == Rest(v)
    ensures |sizes| >= |Rest(v)| ==> Rest(Reads(v, sizes).1) == []
    decreases |sizes|
  {
    hide ReadStep;
    if sizes != [] {
      assert sizes[0] in sizes && forall s :: s in sizes[1..] ==> s in sizes;
      OneReadInOrder(v, sizes[0]);
      var (out, after) := ReadStep(v, sizes[0]);
      var (more, end) := Reads(after, sizes[1..]);
      ReadsInOrder(after, sizes[1..]);
      assert Reads(v, sizes) == (out + more, end);
      assert (out + more) + Rest(end) == out + (more + Rest(end));
    }
  }

  /** For every input and every sequence of destinations of at least 256 bytes, reading to the
      end yields the escaped blocks of the input, and the end comes after at most as many
      Reads as there are bytes to yield. */
  lemma ReadsYieldEscapedBlocks(rawXML: seq<Byte>, sizes: seq<nat>)
    requires forall s :: s in sizes ==> s >= BLOCK
    ensures var (out, end) := Reads(View(rawXML, [], []), sizes);
            out <= EscapeBlocks(rawXML)
            && (Rest(end) == [] <==> out == EscapeBlocks(rawXML))
            && (|sizes| >= |EscapeBlocks(rawXML)| ==> out == EscapeBlocks(rawXML))
  {
    var v := View(rawXML, [], []);
    assert Rest(v) == EscapeBlocks(rawXML);
    ReadsInOrder(v, sizes);
  }

  /** The Reads whose destinations stop short of the first control in the buffer. */
  function Misfits(v: View, sizes: seq<nat>): nat
    decreases |sizes|
  {
    if sizes == [] then 0
    else (if Fits(v, sizes[0]) then 0 else 1) + Misfits(ReadStep(v, sizes[0]).1, sizes[1..])
  }

  lemma {:induction false} MisfitsLengthen(v: View, sizes: seq<nat>)
    ensures |Reads(v, sizes).0 + Rest(Reads(v, sizes).1)| == |Rest(v)| + 5 * Misfits(v, sizes)
    ensures Misfits(v, sizes) == 0 ==> Reads(v, sizes).0 + Rest(Reads(v, sizes).1) == Rest(v)
    decreases |sizes|
  {
    hide ReadStep, Rest, Fits;
    if sizes != [] {
      var (out, after) := ReadStep(v, sizes[0]);
      var (more, end) := Reads(after, sizes[1..]);
      ReadIsRightIffItFits(v, sizes[0]);
      MisfitsLengthen(after, sizes[1..]);
      assert Reads(v, sizes) == (out + more, end);
      assert (out + more) + Rest(end) == out + (more + Rest(end));
    }
  }

  /** Reads of any sizes from a fresh reader hand over the escaped blocks, and leave the rest of
      them to come, exactly when every destination reaches the first control. */
  lemma ReadsAreRightIffAllFit(rawXML: seq<Byte>, sizes: seq<nat>)
    ensures var (out, end) := Reads(View(rawXML, [], []), sizes);
            out + Rest(end) == EscapeBlocks(rawXML) <==> Misfits(View(rawXML, [], []), sizes) == 0
  {
    var v := View(rawXML, [], []);
    assert Rest(v) == EscapeBlocks(rawXML);
    MisfitsLengthen(v, sizes);
  }

  /** A fresh reader of a text that begins with two plain bytes and a control goes wrong on a
      destination of one byte. */
  lemma ShortReadGoesWrong(x: Byte, y: Byte, control: Byte, rest: seq<Byte>)
    requires 0x20 <= x < 0x7F && 0x20 <= y < 0x7F && SingleByteControl(control)
    ensures var rawXML := [x, y, control] + rest;
            var (out, end) := Reads(View(rawXML, [], []), [1]);
            out + Rest(end) != EscapeBlocks(rawXML)
  {
    var rawXML := [x, y, control] + rest;
    var v := View(rawXML, [], []);
    var b := Refill(v).buf;
    assert b[0] == x && b[1] == y && b[2] == control;
    assert b[1..][0] == y && b[2..][0] == control;
    assert FirstControl(b, 2) == 2;
    assert FirstControl(b, 1) == 2;
    assert FirstControl(b, 0) == 2;
    assert !Fits(v, 1);
    assert [1][1..] == [];
    assert Misfits(v, [1]) == 1 + Misfits(ReadStep(v, 1).1, []);
    ReadsAreRightIffAllFit(rawXML, [1]);
  }

  // ----- how long the output is

  /** Number of escapes. */
  function Controls(b: seq<Byte>): nat {
    if b == [] then 0 else (if EscapeHere(b) then 1 else 0) + Controls(b[1..])
  }

  lemma {:induction false} BytesLength(b: seq<Byte>)
    ensures |EscapeBytes(b)| == |b| + 5 * Controls(b)
  {
    if b != [] {
      BytesLength(b[1..]);
    }
  }

  lemma EscapeLength(b: seq<Byte>)
    ensures |Escape(b)| == |b| + 5 * Controls(b)
  {
    EscapeByByte(b);
    BytesLength(b);
  }

  // ----- blocks against the whole text

  /** A two-byte control lies across the cut between a and b. */
  predicate Straddles(a: seq<Byte>, b: seq<Byte>) {
    a != [] && b != [] && a[|a| - 1] == 0xC2 && C1Tail(b[0])
  }

  lemma CutAfterOne(x: Byte, b: seq<Byte>)
    ensures !Straddles([x], b) ==> EscapeBytes([x] + b) == EscapeBytes([x]) + EscapeBytes(b)
    ensures Straddles([x], b) ==> |EscapeBytes([x] + b)| == |EscapeBytes([x])| + |EscapeBytes(b)| + 5
  {
    var s := [x] + b;
    assert s[1..] == b && [x][1..] == [];
    assert EscapeBytes([x]) == FirstByte([x]) + [];
    assert EscapeBytes(s) == FirstByte(s) + EscapeBytes(b);
    assert EscapeHere(s) <==> EscapeHere([x]) || Straddles([x], b);
  }

  lemma CutLater(a: seq<Byte>, b: seq<Byte>)
    requires |a| >= 2
    ensures EscapeBytes(a + b) == FirstByte(a) + EscapeBytes(a[1..] + b)
    ensures EscapeBytes(a) == FirstByte(a) + EscapeBytes(a[1..])
    ensures Straddles(a, b) <==> Straddles(a[1..], b)
  {
    assert (a + b)[1..] == a[1..] + b;
    assert FirstByte(a + b) == FirstByte(a);
  }

  /** Cutting the text changes its escape exactly when the cut splits a control; then one
      escape is missed. */
  lemma {:induction false} CutText(a: seq<Byte>, b: seq<Byte>)
    ensures !Straddles(a, b) ==> EscapeBytes(a + b) == EscapeBytes(a) + EscapeBytes(b)
    ensures Straddles(a, b) ==> |EscapeBytes(a + b)| == |EscapeBytes(a)| + |EscapeBytes(b)| + 5
  {
    hide FirstByte;
    if a == [] {
      assert a + b == b;
    } else if |a| == 1 {
      CutAfterOne(a[0], b);
      assert a == [a[0]];
    } else {
      hide Straddles, EscapeBytes;
      CutLater(a, b);
      CutText(a[1..], b);
    }
  }

  ghost predicate SplitsAControl(b: seq<Byte>) {
    exists k :: 0 < k < |b| && k % 256 == 0 && b[k - 1] == 0xC2 && C1Tail(b[k])
  }

  lemma {:induction false} BlocksAgainstText(b: seq<Byte>)
    ensures |EscapeBlocks(b)| <= |Escape(b)|
    ensures EscapeBlocks(b) == Escape(b) <==> !SplitsAControl(b)
  {
    if |b| <= BLOCK {
      assert b[..|b|] == b && (b != [] ==> EscapeBlocks(b) == Escape(b) + EscapeBlocks(b[|b|..]));
    } else {
      var first, rest := b[..BLOCK], b[BLOCK..];
      assert b == first + rest && Straddles(first, rest) == (b[BLOCK - 1] == 0xC2 && C1Tail(b[BLOCK]));
      CutText(first, rest);
      EscapeByByte(b);
      EscapeByByte(first);
      EscapeByByte(rest);
      BlocksAgainstText(rest);
      SplitsFurtherOn(b);
      JoinBlocks(EscapeBytes(first), EscapeBytes(rest), EscapeBlocks(rest));
    }
  }

  lemma JoinBlocks(a: seq<Byte>, b: seq<Byte>, c: seq<Byte>)
    requires |c| <= |b|
    ensures a + b == a + c <==> b == c
  {
    if a + b == a + c {
      assert b == (a + b)[|a|..] == (a + c)[|a|..] == c;
    }
  }

  lemma SplitsFurtherOn(b: seq<Byte>)
    requires |b| > BLOCK
    ensures SplitsAControl(b) <==>
            (b[BLOCK - 1] == 0xC2 && C1Tail(b[BLOCK])) || SplitsAControl(b[BLOCK..])
  {
    var rest := b[BLOCK..];
    if SplitsAControl(b) {
      var k :| 0 < k < |b| && k % 256 == 0 && b[k - 1] == 0xC2 && C1Tail(b[k]);
      if k > BLOCK {
        var j := k - BLOCK;
        assert rest[j - 1] == b[k - 1] && rest[j] == b[k];
      }
    }
    if SplitsAControl(rest) {
      var j :| 0 < j < |rest| && j % 256 == 0 && rest[j - 1] == 0xC2 && C1Tail(rest[j]);
      var k := j + BLOCK;
      assert rest[j - 1] == b[k - 1] && rest[j] == b[k];
    }
  }

  // ----- text without two-byte controls

  predicate HasC1(b: seq<Byte>) {
    exists i :: 0 <= i < |b| - 1 && b[i] == 0xC2 && C1Tail(b[i + 1])
  }

  /** Byte by byte, with no regard for runes. */
  function PlainEscape(b: seq<Byte>): seq<Byte> {
    if b == [] then []
    else (if SingleByteControl(b[0]) then EscapeText(b[0] as int) else [b[0]]) + PlainEscape(b[1..])
  }

  lemma C1Cons(b: seq<Byte>)
    requires b != []
    ensures HasC1(b) <==> HasC1(b[1..]) || (|b| >= 2 && b[0] == 0xC2 && C1Tail(b[1]))
  {
    var t := b[1..];
    if HasC1(t) {
      var i :| 0 <= i < |t| - 1 && t[i] == 0xC2 && C1Tail(t[i + 1]);
      var j := i + 1;
      assert b[j] == t[i] && b[j + 1] == t[i + 1];
    }
    if HasC1(b) {
      var i :| 0 <= i < |b| - 1 && b[i] == 0xC2 && C1Tail(b[i + 1]);
      if i > 0 {
        var j := i - 1;
        assert t[j] == b[i] && t[j + 1] == b[i + 1];
      }
    }
    assert |b| >= 2 ==> b[0 + 1] == b[1];
  }

  lemma {:induction false} PlainBytes(b: seq<Byte>)
    requires !HasC1(b)
    ensures !SplitsAControl(b)
    ensures EscapeBytes(b) == PlainEscape(b)
  {
    forall k | 0 < k < |b| ensures !(b[k - 1] == 0xC2 && C1Tail(b[k])) {
      var i := k - 1;
      assert !(b[i] == 0xC2 && C1Tail(b[i + 1]));
    }
    if b != [] {
      C1Cons(b);
      PlainBytes(b[1..]);
    }
  }

  lemma {:induction false} PlainIsNoLonger(b: seq<Byte>)
    ensures |PlainEscape(b)| <= |EscapeBytes(b)|
    ensures HasC1(b) ==> |PlainEscape(b)| < |EscapeBytes(b)|
  {
    if b != [] {
      C1Cons(b);
      PlainIsNoLonger(b[1..]);
    }
  }

  /** Taking runes into account changes the escape exactly on text with a two-byte control. */
  lemma PlainIffNoC1(b: seq<Byte>)
    ensures Escape(b) == PlainEscape(b) <==> !HasC1(b)
  {
    EscapeByByte(b);
    PlainIsNoLonger(b);
    if !HasC1(b) {
      PlainBytes(b);
    }
  }

  lemma PlainWithoutC1(b: seq<Byte>)
    requires !HasC1(b)
    ensures EscapeBlocks(b) == Escape(b) == PlainEscape(b)
  {
    BlocksAgainstText(b);
    EscapeByByte(b);
    PlainBytes(b);
  }

  /** The escaped text holds no control any more. */
  lemma {:induction false} PlainEscapeIsClean(b: seq<Byte>)
    requires !HasC1(b)
    ensures !HasC1(PlainEscape(b))
    ensures forall x :: x in PlainEscape(b) ==> !SingleByteControl(x)
    ensures b != [] ==> PlainEscape(b) != [] && (PlainEscape(b)[0] == b[0] || PlainEscape(b)[0] == 0x5C)
  {
    if b != [] {
      C1Cons(b);
      PlainEscapeIsClean(b[1..]);
      var head := if SingleByteControl(b[0]) then EscapeText(b[0] as int) else [b[0]];
      var tail, s := PlainEscape(b[1..]), PlainEscape(b);
      assert s == head + tail;
      forall i | 0 <= i < |s| - 1 ensures !(s[i] == 0xC2 && C1Tail(s[i + 1])) {
        if i >= |head| {
          assert s[i] == tail[i - |head|] && s[i + 1] == tail[i - |head| + 1];
        } else if i == |head| - 1 {
          assert s[i + 1] == tail[0];
        }
      }
    }
  }

  lemma {:induction false} CleanIsFixed(b: seq<Byte>)
    requires forall x :: x in b ==> !SingleByteControl(x)
    ensures PlainEscape(b) == b
  {
    if b != [] {
      CleanIsFixed(b[1..]);
    }
  }

  /** The decoder finds no control in text that has been through the reader, and reading it
      again leaves it as it is. */
  lemma EscapingTwiceChangesNothing(b: seq<Byte>)
    requires !HasC1(b)
    ensures FirstControl(EscapeBlocks(b), 0) == |EscapeBlocks(b)|
    ensures EscapeBlocks(EscapeBlocks(b)) == EscapeBlocks(b)
  {
    PlainWithoutC1(b);
    PlainEscapeIsClean(b);
    var s := PlainEscape(b);
    var c := FirstControl(s, 0);
    if c < |s| {
      assert s[c..][0] == s[c] && (c + 1 < |s| ==> s[c..][1] == s[c + 1]);
    }
    PlainWithoutC1(PlainEscape(b));
    CleanIsFixed(PlainEscape(b));
  }
}

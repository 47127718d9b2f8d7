/** The streaming reader that escapes control characters ahead of the XML decoder. */
module XmlSafeReader {
  import opened Utf8

  const BLOCK := 256

  // ----- what it is for: escaping as a function of the whole text

  /** One of the characters 0-9a-f, as a byte. */
  function HexDigit(n: int): Byte
    requires 0 <= n < 16
  {
    if n < 10 then (0x30 + n) as Byte else (0x61 + n - 10) as Byte
  }

  /** The bytes of \uNNNN for the code of a control. */
  function EscapeText(code: int): seq<Byte>
    requires 0 <= code < 0x10000
  {
    [0x5C, 0x75, HexDigit(code / 4096), HexDigit(code / 256 % 16), HexDigit(code / 16 % 16), HexDigit(code % 16)]
  }

  /** The value of a digit 0-9 or a-f, whatever wrote it; -1 for any other byte. */
  function DigitValue(b: Byte): int {
    if '0' as int <= b as int <= '9' as int then b as int - '0' as int
    else if 'a' as int <= b as int <= 'f' as int then b as int - 'a' as int + 10
    else -1
  }

  /** Digits read in base 16, the last one least. */
  function ReadHex(digits: seq<Byte>): int {
    if digits == [] then 0
    else 16 * ReadHex(digits[..|digits| - 1]) + DigitValue(digits[|digits| - 1])
  }

  /** An escape is a backslash, the letter u and four digits that read as the code. */
  lemma EscapeReadsAsCode(code: int)
    requires 0 <= code < 0x10000
    ensures var text := EscapeText(code);
            |text| == 6 && text[0] as int == '\\' as int && text[1] as int == 'u' as int
            && (forall i :: 2 <= i < 6 ==> 0 <= DigitValue(text[i]) < 16)
            && ReadHex(text[2..]) == code
  {
    var text := EscapeText(code);
    var d := text[2..];
    assert d[..3][..2] == [d[0], d[1]] && [d[0], d[1]][..1] == [d[0]] && [d[0]][..0] == [];
    assert ReadHex([d[0]]) == DigitValue(d[0]);
    assert ReadHex(d[..3][..2]) == 16 * DigitValue(d[0]) + DigitValue(d[1]);
    assert ReadHex(d[..3]) == 16 * ReadHex(d[..3][..2]) + DigitValue(d[2]);
    HexDigits(code);
  }

  lemma HexDigits(code: int)
    requires 0 <= code < 0x10000
    ensures code == 4096 * (code / 4096) + 256 * (code / 256 % 16) + 16 * (code / 16 % 16) + code % 16
  {
    assert code / 16 == 16 * (code / 256) + code / 16 % 16 by {
      assert code / 16 / 16 == code / 256;
    }
    assert code / 256 == 16 * (code / 4096) + code / 256 % 16 by {
      assert code / 256 / 16 == code / 4096;
    }
  }

  /** Rune by rune: a control is replaced by its escape and costs one byte of input whatever
      its width; any other rune is copied. */
  function Escape(b: seq<Byte>): seq<Byte> {
    if b == [] then []
    else
      var (r, n) := DecodeRune(b);
      if NeedsEscape(r) then EscapeText(r) + Escape(b[1..])
      else b[..n] + Escape(b[n..])
  }

  /** The text cut into blocks of 256 bytes, each escaped by itself. */
  function EscapeBlocks(b: seq<Byte>): seq<Byte> {
    if b == [] then []
    else Escape(b[..BlockSize(b)]) + EscapeBlocks(b[BlockSize(b)..])
  }

  function BlockSize(b: seq<Byte>): nat {
    if |b| < BLOCK then |b| else BLOCK
  }

  // ----- how the reader does it

  /** The reader's fields: what the inner reader has left, the unread part of the backing
      block, and escape bytes that did not fit. */
  datatype View = View(inner: seq<Byte>, buf: seq<Byte>, code: seq<Byte>)

  /** What is still to come. */
  function Rest(v: View): seq<Byte> {
    v.code + Escape(v.buf) + EscapeBlocks(v.inner)
  }

  /** The inner Read, when the buffer has run out. */
  function Refill(v: View): View {
    if v.buf != [] then v
    else v.(inner := v.inner[BlockSize(v.inner)..], buf := v.inner[..BlockSize(v.inner)])
  }

  /** Index of the first control at or after rune boundary i; |b| when there is none. */
  function FirstControl(b: seq<Byte>, i: nat): (c: nat)
    requires i <= |b|
    ensures i <= c <= |b|
    ensures c < |b| ==> EscapeHere(b[c..])
    decreases |b| - i
  {
    if i == |b| then i
    else
      EscapeIsLocal(b[i..]);
      var (r, n) := DecodeRune(b[i..]);
      if NeedsEscape(r) then i else FirstControl(b, i + n)
  }

  function Min(a: nat, b: nat): nat {
    if a < b then a else b
  }

  function CodeAt(b: seq<Byte>, i: nat): (code: int)
    requires i < |b| && EscapeHere(b[i..])
    ensures 0 <= code < 256
  {
    EscapeIsLocal(b[i..]);
    DecodeRune(b[i..]).0
  }

  /** One Read into a destination of the given length: the bytes stored and what is left. */
  function ReadStep(v: View, size: nat): (seq<Byte>, View) {
    if v.code != [] then
      var n := Min(size, |v.code|);
      (v.code[..n], v.(code := v.code[n..]))
    else ReadBuffer(Refill(v), size)
  }

  /** Read when no escape bytes are pending and the buffer has been refilled. */
  function ReadBuffer(w: View, size: nat): (seq<Byte>, View) {
    var c := FirstControl(w.buf, 0);
    if c < |w.buf| then ReadControl(w, c, EscapeText(CodeAt(w.buf, c)), size)
    else
      var n := Min(size, |w.buf|);
      (w.buf[..n], w.(buf := w.buf[n..]))
  }

  /** Read of a buffer whose first control, at index c, has the given escape. */
  function ReadControl(w: View, c: nat, text: seq<Byte>, size: nat): (seq<Byte>, View)
    requires c < |w.buf|
  {
    var n := Min(size, c);
    var m := Min(size - n, |text|);
    (w.buf[..n] + text[..m], w.(buf := w.buf[n + 1..], code := text[m..]))
  }

  lemma JoinCopies(all: seq<Byte>, n: nat, a: seq<Byte>, b: seq<Byte>)
    requires n <= |all| && all[..n] == a && all[n..] == b
    ensures all == a + b
  {
  }

  class Reader {
    var inner: seq<Byte>         // what the bytes.Reader has left
    const backing: array<Byte>
    var start: nat               // r.buf is backing[start..stop]
    var stop: nat
    var code: seq<Byte>

    ghost predicate Valid()
      reads this
    {
      backing.Length == BLOCK && start <= stop <= BLOCK
    }

    ghost function Now(): View
      requires Valid()
      reads this, backing
    {
      View(inner, backing[start..stop], code)
    }

    constructor (rawXML: seq<Byte>)
      ensures Valid() && fresh(backing) && Now() == View(rawXML, [], [])
    {
      inner, start, stop, code := rawXML, 0, 0, [];
      backing := new Byte[BLOCK];
    }

    /** Copies as much of src as fits into d from offset on. */
    method Copy(d: array<Byte>, offset: nat, src: seq<Byte>) returns (n: nat)
      requires offset <= d.Length
      modifies d
      ensures n == Min(d.Length - offset, |src|)
      ensures d[..offset] == old(d[..offset])
      ensures d[offset..offset + n] == src[..n]
      ensures d[offset + n..] == old(d[offset + n..])
    {
      n := if d.Length - offset < |src| then d.Length - offset else |src|;
      var i := 0;
      while i < n
        invariant i <= n
        invariant d[..] == old(d[..offset]) + src[..i] + old(d[offset + i..])
      {
        d[offset + i] := src[i];
        i := i + 1;
      }
    }

    method Fill()
      requires Valid()
      modifies this, backing
      ensures Valid() && Now() == Refill(old(Now()))
    {
      if start == stop {
        var n := Copy(backing, 0, inner);
        assert backing[..n] == inner[..n];
        start, stop, inner := 0, n, inner[n..];
      }
    }

    /** The scan for the first control. */
    method Scan() returns (i: nat)
      requires Valid()
      ensures i == FirstControl(backing[start..stop], 0)
    {
      ghost var buf := backing[start..stop];
      i := 0;
      while i < stop - start
        invariant i <= stop - start
        invariant FirstControl(buf, i) == FirstControl(buf, 0)
        decreases stop - start - i
      {
        assert backing[start + i..stop] == buf[i..];
        var (r, size) := DecodeRune(backing[start + i..stop]);
        if NeedsEscape(r) {
          return;
        }
        i := i + size;
      }
    }

    method Read(d: array<Byte>) returns (n: nat, eof: bool)
      requires Valid() && d != backing
      modifies this, backing, d
      ensures Valid() && n <= d.Length && eof == (n == 0)
      ensures d[n..] == old(d[n..])
      ensures (d[..n], Now()) == ReadStep(old(Now()), d.Length)
    {
      if |code| > 0 {
        n := Copy(d, 0, code);
        code := code[n..];
        return n, n == 0;
      }
      Fill();
      n := CopyBuffer(d);
      eof := n == 0;
    }

    /** Read's main part: copy up to the first control. */
    method CopyBuffer(d: array<Byte>) returns (n: nat)
      requires Valid() && d != backing
      modifies this, d
      ensures Valid() && n <= d.Length
      ensures d[n..] == old(d[n..])
      ensures (d[..n], Now()) == ReadBuffer(old(Now()), d.Length)
    {
      var i := Scan();
      if i < stop - start {
        assert backing[start + i..stop] == Now().buf[i..];
        n := CopyControl(d, i, EscapeText(DecodeRune(backing[start + i..stop]).0));
      } else {
        ghost var w := Now();
        n := Copy(d, 0, backing[start..stop]);
        start := start + n;
        assert w.buf[n..] == backing[start..stop];
      }
    }

    /** Copies what stands before a control at index i of the buffer, and steps over one byte. */
    method CopyBefore(d: array<Byte>, i: nat) returns (n: nat)
      requires Valid() && d != backing && i < stop - start
      modifies this, d
      ensures Valid() && n == Min(d.Length, i)
      ensures d[..n] == old(Now()).buf[..n] && d[n..] == old(d[n..])
      ensures Now() == old(Now()).(buf := old(Now()).buf[n + 1..])
    {
      ghost var buf := Now().buf;
      assert backing[start..start + i] == buf[..i];
      n := Copy(d, 0, backing[start..start + i]);
      assert buf[..i][..n] == buf[..n] && d[0..n] == d[..n];
      start := start + n + 1;
      assert backing[start..stop] == buf[n + 1..];
    }

    /** Copies as much of the escape as fits behind n bytes, and keeps the rest. */
    method CopyCode(d: array<Byte>, n: nat, text: seq<Byte>) returns (m: nat)
      requires Valid() && d != backing && n <= d.Length
      modifies this`code, d
      ensures Valid() && m == Min(d.Length - n, |text|)
      ensures d[..n + m] == old(d[..n]) + text[..m] && d[n + m..] == old(d[n + m..])
      ensures Now() == old(Now()).(code := text[m..])
    {
      m := Copy(d, n, text);
      code := text[m..];
      JoinCopies(d[..n + m], n, d[..n], text[..m]);
    }

    /** The part of Read that meets a control at index i of the buffer. */
    method CopyControl(d: array<Byte>, i: nat, text: seq<Byte>) returns (n: nat)
      requires Valid() && d != backing && i < stop - start
      modifies this, d
      ensures Valid() && n <= d.Length
      ensures d[n..] == old(d[n..])
      ensures (d[..n], Now()) == ReadControl(old(Now()), i, text, d.Length)
    {
      n := CopyBefore(d, i);
      ghost var tail := d[n..];
      var m := CopyCode(d, n, text);
      assert d[n + m..] == tail[m..];
      n := n + m;
    }
  }
}

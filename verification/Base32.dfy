/** The base32 codec of the TOTP secrets (section 6 of RFC 4648, written without padding). */
module Base32 {
  import opened Common
  import opened Words

  // The codec accumulates bits in one 32-bit word that it never masks, so bits it has
  // already consumed stay in the word and are shifted out at the top. The reference
  // definitions regroup the bits of the whole input at once, as the RFC describes.

  type Bytes = xs: seq<nat> | forall i :: 0 <= i < |xs| ==> xs[i] < 256 witness []
  type Symbols = xs: seq<nat> | forall i :: 0 <= i < |xs| ==> xs[i] < 32 witness []

  /** BASE32_ALPHABET[i] */
  function Letter(i: nat): char
    requires i < 32
  {
    if i < 26 then 'A' + i as char else '2' + (i - 26) as char
  }

  lemma LettersAreTheAlphabet()
    ensures seq(32, i requires 0 <= i < 32 => Letter(i)) == "ABCDEFGHIJKLMNOPQRSTUVWXYZ234567"
  {
  }

  /** BASE32_ALPHABET.indexOf(c) */
  function IndexOf(c: char): (i: int)
    ensures -1 <= i < 32
    ensures i >= 0 ==> Letter(i) == c
    ensures i == -1 ==> forall j: nat :: j < 32 ==> Letter(j) != c
  {
    if 'A' <= c <= 'Z' then c as int - 'A' as int
    else if '2' <= c <= '7' then c as int - '2' as int + 26
    else -1
  }

  lemma IndexOfLetter(i: nat)
    requires i < 32
    ensures IndexOf(Letter(i)) == i
  {
  }

  function Letters(symbols: Symbols): (text: string)
    ensures |text| == |symbols|
    ensures forall i :: 0 <= i < |text| ==> text[i] == Letter(symbols[i])
  {
    seq(|symbols|, i requires 0 <= i < |symbols| => Letter(symbols[i]))
  }

  predicate InAlphabet(text: string) {
    forall i :: 0 <= i < |text| ==> IndexOf(text[i]) != -1
  }

  function Indices(text: string): (symbols: Symbols)
    requires InAlphabet(text)
    ensures |symbols| == |text|
    ensures Letters(symbols) == text
  {
    seq(|text|, i requires 0 <= i < |text| => IndexOf(text[i]))
  }

  lemma IndicesOfLetters(symbols: Symbols)
    ensures InAlphabet(Letters(symbols)) && Indices(Letters(symbols)) == symbols
  {
    forall i | 0 <= i < |symbols| ensures IndexOf(Letters(symbols)[i]) == symbols[i] {
      IndexOfLetter(symbols[i]);
    }
  }

  // ----- reference: the input as one string of bits -----

  /** The bits of a sequence of w-bit values, in order. */
  function Bits(w: nat, xs: seq<nat>): seq<bool> {
    if xs == [] then [] else ToBits(w, xs[0]) + Bits(w, xs[1..])
  }

  /** A string of bits cut into values of w bits; bits left over at the end are dropped. */
  function Group(w: nat, bits: seq<bool>): (xs: seq<nat>)
    requires w > 0
    ensures forall i :: 0 <= i < |xs| ==> xs[i] < Pow2(w)
    decreases |bits|
  {
    if |bits| < w then [] else [FromBits(bits[..w])] + Group(w, bits[w..])
  }

  /** The bits that Group drops. */
  function Rest(w: nat, bits: seq<bool>): (rest: seq<bool>)
    requires w > 0
    ensures |rest| < w
    decreases |bits|
  {
    if |bits| < w then bits else Rest(w, bits[w..])
  }

  lemma {:induction false} BitsAppend(w: nat, xs: seq<nat>, x: nat)
    ensures Bits(w, xs + [x]) == Bits(w, xs) + ToBits(w, x)
  {
    if xs == [] {
      assert Bits(w, [x]) == ToBits(w, x) + [];
    } else {
      assert (xs + [x])[1..] == xs[1..] + [x];
      BitsAppend(w, xs[1..], x);
    }
  }

  lemma {:induction false} BitsLength(xs: seq<nat>)
    ensures |Bits(5, xs)| == 5 * |xs| && |Bits(8, xs)| == 8 * |xs|
  {
    if xs != [] {
      BitsLength(xs[1..]);
    }
  }

  lemma {:induction false} GroupOfBits(w: nat, xs: seq<nat>, rest: seq<bool>)
    requires |rest| < w
    requires forall i :: 0 <= i < |xs| ==> xs[i] < Pow2(w)
    ensures Group(w, Bits(w, xs) + rest) == xs && Rest(w, Bits(w, xs) + rest) == rest
  {
    if xs == [] {
      assert [] + rest == rest;
    } else {
      GroupOfBits(w, xs[1..], rest);
      GroupNext(w, xs[0], Bits(w, xs[1..]), rest);
    }
  }

  lemma GroupNext(w: nat, x: nat, more: seq<bool>, rest: seq<bool>)
    requires w > 0 && x < Pow2(w)
    ensures Group(w, ToBits(w, x) + more + rest) == [x] + Group(w, more + rest)
    ensures Rest(w, ToBits(w, x) + more + rest) == Rest(w, more + rest)
  {
    FromToBits(w, x);
    Associates(ToBits(w, x), more, rest);
    GroupFirst(w, ToBits(w, x), more + rest);
  }

  lemma GroupFirst(w: nat, first: seq<bool>, more: seq<bool>)
    requires w > 0 && |first| == w
    ensures Group(w, first + more) == [FromBits(first)] + Group(w, more)
    ensures Rest(w, first + more) == Rest(w, more)
  {
    assert (first + more)[..w] == first && (first + more)[w..] == more;
  }

  lemma GroupStep(w: nat, bits: seq<bool>)
    requires 0 < w <= |bits|
    ensures Bits(w, Group(w, bits)) == ToBits(w, FromBits(bits[..w])) + Bits(w, Group(w, bits[w..]))
    ensures Rest(w, bits) == Rest(w, bits[w..])
  {
    var rest := Group(w, bits[w..]);
    assert Group(w, bits) == [FromBits(bits[..w])] + rest;
    assert Group(w, bits)[1..] == rest;
  }

  lemma Glue(bits: seq<bool>, w: nat, middle: seq<bool>, rest: seq<bool>)
    requires w <= |bits| && bits[w..] == middle + rest
    ensures bits == bits[..w] + middle + rest
  {
    assert bits == bits[..w] + bits[w..];
  }

  lemma {:induction false} BitsOfGroup(w: nat, bits: seq<bool>)
    requires w > 0
    ensures bits == Bits(w, Group(w, bits)) + Rest(w, bits)
    decreases |bits|
  {
    if |bits| >= w {
      ToFromBits(bits[..w]);
      BitsOfGroup(w, bits[w..]);
      GroupStep(w, bits);
      Glue(bits, w, Bits(w, Group(w, bits[w..])), Rest(w, bits[w..]));
    }
  }

  function Zeros(n: nat): (bits: seq<bool>)
    ensures |bits| == n
  {
    seq(n, _ => false)
  }

  lemma {:induction false} ZeroBits(n: nat)
    ensures ToBits(n, 0) == Zeros(n)
  {
    if n > 0 {
      ZeroBits(n - 1);
    }
  }

  /** How many zero bits fill up the last group of five. */
  function Padding(n: nat): (p: nat)
    ensures p < 5 && (8 * n + p) % 5 == 0
  {
    (5 - 8 * n % 5) % 5
  }

  function Regroup(bits: seq<bool>): (s: Symbols)
    ensures s == Group(5, bits)
  {
    Pow2Is32();
    Group(5, bits)
  }

  /** The encoding of section 6 of RFC 4648 without padding characters. */
  function Encoded(bytes: Bytes): string {
    Letters(Regroup(Bits(8, bytes) + Zeros(Padding(|bytes|))))
  }

  /** The bytes that a text over the alphabet stands for. */
  function Decoded(text: string): (bytes: Option<Bytes>) {
    Pow2Is32();
    if InAlphabet(text) then Some(Group(8, Bits(5, Indices(text)))) else None
  }

  // ----- the codec -----

  /** The low bits of value are the bits that have been read and not yet written. */
  ghost predicate Pending(read: seq<bool>, written: seq<bool>, value: Word, bits: nat) {
    bits <= 32 && read == written + ToBits(bits, value)
  }

  /** value = (value << w) | x */
  method Push(w: nat, x: nat, value: Word, bits: nat, ghost read: seq<nat>, ghost written: seq<bool>)
    returns (next: Word)
    requires Pending(Bits(w, read), written, value, bits)
    requires ((w == 8 && x < 256) || (w == 5 && x < 32)) && bits + w <= 32
    ensures Pending(Bits(w, read + [x]), written, next, bits + w)
  {
    Pow2Is32();
    ShiftIn(value, bits, w, x);
    BitsAppend(w, read, x);
    Associates(written, ToBits(bits, value), ToBits(w, x));
    next := Or(Shl(value, w), x);
  }

  /** (value >>> (bits - w)) & mask */
  method Top(w: nat, mask: nat, value: Word, bits: nat, ghost read: seq<bool>, ghost written: seq<nat>) returns (x: nat)
    requires Pending(read, Bits(w, written), value, bits)
    requires w <= bits && ((w == 8 && mask == 255) || (w == 5 && mask == 31))
    ensures x <= mask && Pending(read, Bits(w, written + [x]), value, bits - w)
  {
    Pow2Is32();
    TakeTop(value, bits, w);
    x := And(Shr(value, bits - w), mask);
    BitsAppend(w, written, x);
    Associates(Bits(w, written), ToBits(w, x), ToBits(bits - w, value));
  }

  /** (value << (5 - bits)) & 31 */
  method Last(value: Word, bits: nat, ghost read: seq<bool>, ghost written: seq<nat>) returns (x: nat)
    requires Pending(read, Bits(5, written), value, bits) && 0 < bits < 5
    ensures x < 32 && Bits(5, written + [x]) == read + Zeros(5 - bits)
  {
    Pow2Is32();
    TakeLast(value, bits, 5);
    ZeroBits(5 - bits);
    x := And(Shl(value, 5 - bits), 31);
    BitsAppend(5, written, x);
    Associates(Bits(5, written), ToBits(bits, value), Zeros(5 - bits));
  }

  /** What has been read is in the letters written so far and the low bits of value. */
  ghost predicate Encoding(read: seq<bool>, written: string, value: Word, bits: nat) {
    InAlphabet(written) && Pending(read, Bits(5, Indices(written)), value, bits)
  }

  lemma AppendLetter(text: string, c: char)
    requires InAlphabet(text) && IndexOf(c) != -1
    ensures InAlphabet(text + [c]) && Indices(text + [c]) == Indices(text) + [IndexOf(c)]
  {
  }

  /** The inner loop: write letters while five bits are pending. */
  method WriteLetters(ghost read: seq<bool>, value: Word, pending: nat, written: string)
    returns (output: string, bits: nat)
    requires Encoding(read, written, value, pending) && pending <= 12
    ensures Encoding(read, output, value, bits) && bits < 5
  {
    output, bits := written, pending;
    while bits >= 5
      invariant bits <= 12 && Encoding(read, output, value, bits)
    {
      var symbol := Top(5, 31, value, bits, read, Indices(output));
      IndexOfLetter(symbol);
      AppendLetter(output, Letter(symbol));
      output := output + [Letter(symbol)];
      bits := bits - 5;
    }
  }

  /** After the loop: the bits still pending make one more letter. */
  method WriteRest(ghost read: seq<bool>, value: Word, bits: nat, written: string) returns (output: string)
    requires Encoding(read, written, value, bits) && bits < 5
    ensures InAlphabet(output) && Bits(5, Indices(output)) == read + Zeros(if bits > 0 then 5 - bits else 0)
  {
    output := written;
    if bits > 0 {
      var symbol := Last(value, bits, read, Indices(output));
      IndexOfLetter(symbol);
      AppendLetter(output, Letter(symbol));
      output := output + [Letter(symbol)];
    } else {
      assert Zeros(0) == [] && ToBits(0, value) == [];
    }
  }

  method PushByte(ghost read: Bytes, byte: nat, value: Word, bits: nat, ghost written: string) returns (next: Word)
    requires byte < 256 && bits < 5 && Encoding(Bits(8, read), written, value, bits)
    ensures Encoding(Bits(8, read + [byte]), written, next, bits + 8)
  {
    next := Push(8, byte, value, bits, read, Bits(5, Indices(written)));
  }

  lemma EncodingStarts(bytes: Bytes)
    requires bytes == []
    ensures Encoding(Bits(8, bytes), "", 0, 0)
  {
  }

  method EncodeBase32(bytes: Bytes) returns (output: string)
    ensures output == Encoded(bytes)
  {
    var bits: nat, value: Word := 0, 0;
    output := "";
    EncodingStarts(bytes[..0]);
    for i := 0 to |bytes|
      invariant bits < 5 && Encoding(Bits(8, bytes[..i]), output, value, bits)
    {
      value := PushByte(bytes[..i], bytes[i], value, bits, output);
      TakeOneMore(bytes, i);
      output, bits := WriteLetters(Bits(8, bytes[..i + 1]), value, bits + 8, output);
    }
    TakeAll(bytes);
    output := WriteRest(Bits(8, bytes), value, bits, output);
    EncodingIsUnique(bytes, Indices(output), if bits > 0 then 5 - bits else 0);
  }

  /** input.replace(/=+$/g, '') */
  function TrimEquals(input: string): (s: string) {
    if input != "" && input[|input| - 1] == '=' then TrimEquals(input[..|input| - 1]) else input
  }

  /** The letters read are the bytes written so far and the low bits of value. */
  ghost predicate Decoding(read: string, written: seq<nat>, value: Word, bits: nat) {
    InAlphabet(read) && Pending(Bits(5, Indices(read)), Bits(8, written), value, bits)
  }

  /** A byte is written as soon as eight bits are pending. */
  method WriteByte(ghost read: string, value: Word, pending: nat, written: Bytes) returns (output: Bytes, bits: nat)
    requires Decoding(read, written, value, pending) && pending <= 12
    ensures Decoding(read, output, value, bits) && bits < 8
  {
    output, bits := written, pending;
    if bits >= 8 {
      var byte := Top(8, 255, value, bits, Bits(5, Indices(read)), output);
      output := output + [byte];
      bits := bits - 8;
    }
  }

  method PushLetter(ghost read: string, ghost c: char, index: nat, value: Word, bits: nat, ghost written: Bytes)
    returns (next: Word)
    requires IndexOf(c) == index && bits < 8 && Decoding(read, written, value, bits)
    ensures Decoding(read + [c], written, next, bits + 5)
  {
    AppendLetter(read, c);
    next := Push(5, index, value, bits, Indices(read), Bits(8, written));
  }

  /** upper stands for String.prototype.toUpperCase. */
  method DecodeBase32(input: string, upper: string -> string) returns (bytes: Option<Bytes>)
    ensures bytes == Decoded(upper(TrimEquals(input)))
  {
    var cleaned := upper(TrimEquals(input));
    var bits: nat, value: Word := 0, 0;
    var output: Bytes := [];
    DecodingStarts(cleaned[..0]);
    for i := 0 to |cleaned|
      invariant bits < 8 && Decoding(cleaned[..i], output, value, bits)
    {
      var index := IndexOf(cleaned[i]);
      if index == -1 {
        NotDecoded(cleaned, i);
        return None;
      }
      TakeOneMore(cleaned, i);
      value := PushLetter(cleaned[..i], cleaned[i], index, value, bits, output);
      output, bits := WriteByte(cleaned[..i + 1], value, bits + 5, output);
    }
    TakeAll(cleaned);
    DecodingEnds(cleaned, output, value, bits);
    return Some(output);
  }

  lemma DecodingStarts(text: string)
    requires text == ""
    ensures Decoding(text, [], 0, 0)
  {
  }

  lemma NotDecoded(text: string, i: nat)
    requires i < |text| && IndexOf(text[i]) == -1
    ensures Decoded(text) == None
  {
  }

  lemma DecodingEnds(text: string, bytes: Bytes, value: Word, bits: nat)
    requires bits < 8 && Decoding(text, bytes, value, bits)
    ensures Decoded(text) == Some(bytes)
  {
    Pow2Is32();
    GroupOfBits(8, bytes, ToBits(bits, value));
  }

  lemma PaddingUnique(n: nat, m: nat, pad: nat)
    requires 5 * m == 8 * n + pad && pad < 5
    ensures pad == Padding(n)
  {
  }

  lemma EncodingIsUnique(bytes: Bytes, symbols: Symbols, pad: nat)
    requires pad < 5 && Bits(5, symbols) == Bits(8, bytes) + Zeros(pad)
    ensures Letters(symbols) == Encoded(bytes)
  {
    BitsLength(symbols);
    BitsLength(bytes);
    PaddingUnique(|bytes|, |symbols|, pad);
    assert Bits(5, symbols) + [] == Bits(5, symbols);
    Pow2Is32();
    GroupOfBits(5, symbols, []);
  }

  // ----- what the codec promises -----

  /** The encoding has ceil(8n / 5) characters. */
  lemma EncodedLength(bytes: Bytes)
    ensures |Encoded(bytes)| == (8 * |bytes| + 4) / 5
  {
    EncodedBits(bytes);
    BitsLength(bytes);
    BitsLength(Indices(Encoded(bytes)));
  }

  lemma FullGroups(n: nat, m: nat, rest: nat)
    requires 5 * m + rest == 8 * n + Padding(n) && rest < 5
    ensures rest == 0
  {
  }

  lemma EncodedBits(bytes: Bytes)
    ensures InAlphabet(Encoded(bytes))
    ensures Bits(5, Indices(Encoded(bytes))) == Bits(8, bytes) + Zeros(Padding(|bytes|))
  {
    var bits := Bits(8, bytes) + Zeros(Padding(|bytes|));
    BitsOfGroup(5, bits);
    BitsLength(bytes);
    BitsLength(Regroup(bits));
    FullGroups(|bytes|, |Regroup(bits)|, |Rest(5, bits)|);
    IndicesOfLetters(Regroup(bits));
  }

  /** Decoding undoes encoding, for every byte sequence. */
  lemma RoundTrip(bytes: Bytes)
    ensures Decoded(Encoded(bytes)) == Some(bytes)
  {
    Pow2Is32();
    EncodedBits(bytes);
    GroupOfBits(8, bytes, Zeros(Padding(|bytes|)));
  }

  lemma {:induction false} TrimPads(text: string, n: nat)
    requires InAlphabet(text)
    ensures TrimEquals(text + seq(n, _ => '=')) == text
  {
    var padded := text + seq(n, _ => '=');
    if n == 0 {
      assert padded == text;
      assert text != "" ==> IndexOf(text[|text| - 1]) != -1;
    } else {
      assert padded[..|padded| - 1] == text + seq(n - 1, _ => '=');
      TrimPads(text, n - 1);
    }
  }

  /** The two methods composed, with any amount of '=' added in between, are the identity. */
  method EncodeThenDecode(bytes: Bytes, pads: nat, upper: string -> string) returns (back: Option<Bytes>)
    requires forall s :: InAlphabet(s) ==> upper(s) == s
    ensures back == Some(bytes)
  {
    var text := EncodeBase32(bytes);
    EncodedBits(bytes);
    TrimPads(text, pads);
    RoundTrip(bytes);
    back := DecodeBase32(text + seq(pads, _ => '='), upper);
  }

  /** The bits of a text over the alphabet that decoding drops. */
  function LeftOver(text: string): seq<bool>
    requires InAlphabet(text)
  {
    Rest(8, Bits(5, Indices(text)))
  }

  /**
   Encoding undoes decoding exactly for the canonical texts: those whose dropped
   bits are fewer than one symbol and all zero.
   */
  lemma ReencodeIffCanonical(text: string, bytes: Bytes)
    requires Decoded(text) == Some(bytes)
    ensures Encoded(bytes) == text <==> |LeftOver(text)| < 5 && LeftOver(text) == Zeros(|LeftOver(text)|)
  {
    Pow2Is32();
    var rest := LeftOver(text);
    BitsOfGroup(8, Bits(5, Indices(text)));
    if Encoded(bytes) == text {
      EncodedBits(bytes);
      GroupOfBits(8, bytes, Zeros(Padding(|bytes|)));
    }
    if |rest| < 5 && rest == Zeros(|rest|) {
      EncodingIsUnique(bytes, Indices(text), |rest|);
    }
  }
}

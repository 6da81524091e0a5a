/** Authenticated text encryption (liva-native-core/src/crypto.rs).

    A stored text is a `string`; Rust strings and Dafny strings are both sequences of
    Unicode scalar values.  AES-256-GCM with a 16-byte nonce (section 7 of NIST SP 800-38D),
    HKDF-SHA256 (section 2 of RFC 5869) and UTF-8 (section 3 of RFC 3629) are a record of
    functions constrained by `Laws`; hex (section 8 of RFC 4648), the ':' separators, the
    "v2:" prefix and every length check are concrete. */
module Crypto {
  import opened Wrappers

  type byte = x: int | 0 <= x < 256
  type Bytes = seq<byte>

  const V2_PREFIX := "v2:"
  const SALT_LEN := 16
  const IV_LEN := 16
  const TAG_LEN := 16
  const KEY_LEN := 32

  // ---------------------------------------------------------------- primitives

  /** `seal` returns ciphertext followed by the tag; `None` is the cipher's own error. */
  datatype Primitives = Primitives(
    seal: (Bytes, Bytes, Bytes) -> Option<Bytes>,
    unseal: (Bytes, Bytes, Bytes) -> Option<Bytes>,
    derive: (Bytes, Bytes) -> Bytes,
    toUtf8: string -> Bytes,
    fromUtf8: Bytes -> Option<string>)
  {
    /** What is assumed of the libraries: opening a sealed message with the same key and
        nonce gives the plaintext back, the tag has 16 bytes, UTF-8 round-trips. */
    ghost predicate Laws() {
      && (forall k, n, m :: var c := seal(k, n, m);
            c.Some? ==> |c.value| == |m| + TAG_LEN && unseal(k, n, c.value) == Some(m))
      && (forall s :: fromUtf8(toUtf8(s)) == Some(s))
    }
  }

  // ---------------------------------------------------------------- hex

  function HexDigit(v: int): (c: char)
    requires 0 <= v < 16
  {
    if v < 10 then '0' + v as char else 'a' + (v - 10) as char
  }

  function HexValue(c: char): (v: Option<int>)
    ensures v.Some? ==> 0 <= v.value < 16
  {
    if '0' <= c <= '9' then Some(c as int - '0' as int)
    else if 'a' <= c <= 'f' then Some(c as int - 'a' as int + 10)
    else if 'A' <= c <= 'F' then Some(c as int - 'A' as int + 10)
    else None
  }

  function HexEncode(bytes: Bytes): (s: string) {
    if bytes == [] then ""
    else [HexDigit(bytes[0] / 16), HexDigit(bytes[0] % 16)] + HexEncode(bytes[1..])
  }

  function HexDecode(s: string): (r: Option<Bytes>) {
    if s == "" then Some([])
    else if |s| == 1 then None
    else
      match (HexValue(s[0]), HexValue(s[1]), HexDecode(s[2..]))
      case (Some(hi), Some(lo), Some(rest)) => Some([16 * hi + lo] + rest)
      case _ => None
  }

  /** The reference reading of "is hex": an even number of hex digits of either case. */
  predicate IsHex(s: string) {
    |s| % 2 == 0 && forall i :: 0 <= i < |s| ==> HexValue(s[i]).Some?
  }

  /** A hex digit is one of these 22 characters and is worth its place in the list of its case. */
  lemma HexDigits(c: char)
    ensures HexValue(c).Some? <==> c in "0123456789abcdefABCDEF"
    ensures HexValue(c).Some? ==>
      "0123456789abcdef"[HexValue(c).value] == c || "0123456789ABCDEF"[HexValue(c).value] == c
  {
    var v := HexValue(c);
    if v.Some? {
      assert c == "0123456789abcdef"[v.value] || c == "0123456789ABCDEF"[v.value];
      assert c == "0123456789abcdefABCDEF"[v.value] || c == "0123456789abcdefABCDEF"[v.value + 6];
    }
  }

  /** Each byte is printed as its high and its low digit, in lower case. */
  lemma {:induction false} HexEncodeDigits(bytes: Bytes, i: nat)
    requires i < |bytes|
    ensures |HexEncode(bytes)| == 2 * |bytes|
    ensures HexEncode(bytes)[2 * i] == "0123456789abcdef"[bytes[i] / 16]
    ensures HexEncode(bytes)[2 * i + 1] == "0123456789abcdef"[bytes[i] % 16]
  {
    HexEncodeShape(bytes);
    if i > 0 {
      HexEncodeDigits(bytes[1..], i - 1);
      assert HexEncode(bytes)[2..] == HexEncode(bytes[1..]);
      assert HexEncode(bytes)[2 * i] == HexEncode(bytes[1..])[2 * (i - 1)];
      assert HexEncode(bytes)[2 * i + 1] == HexEncode(bytes[1..])[2 * (i - 1) + 1];
    } else {
      LowerHexDigit(bytes[0] / 16);
      LowerHexDigit(bytes[0] % 16);
    }
  }

  lemma LowerHexDigit(v: int)
    requires 0 <= v < 16
    ensures HexDigit(v) == "0123456789abcdef"[v]
  {
  }

  lemma HexDigitValue(v: int)
    requires 0 <= v < 16
    ensures HexValue(HexDigit(v)) == Some(v)
  {
  }

  lemma {:induction false} HexRoundTrip(bytes: Bytes)
    ensures HexDecode(HexEncode(bytes)) == Some(bytes)
  {
    if bytes != [] {
      HexRoundTrip(bytes[1..]);
      HexDigitValue(bytes[0] / 16);
      HexDigitValue(bytes[0] % 16);
      assert HexEncode(bytes)[2..] == HexEncode(bytes[1..]);
      assert bytes == [bytes[0]] + bytes[1..];
    }
  }

  lemma IsHexTail(s: string)
    requires |s| >= 2
    ensures IsHex(s) <==> HexValue(s[0]).Some? && HexValue(s[1]).Some? && IsHex(s[2..])
  {
    assert s == [s[0], s[1]] + s[2..];
    assert forall i :: 0 <= i < |s| - 2 ==> s[2..][i] == s[i + 2];
    assert forall i :: 2 <= i < |s| ==> s[i] == s[2..][i - 2];
  }

  lemma {:induction false} HexDecodes(s: string)
    ensures HexDecode(s).Some? <==> IsHex(s)
    ensures HexDecode(s).Some? ==> |s| == 2 * |HexDecode(s).value|
  {
    if |s| >= 2 {
      IsHexTail(s);
      HexDecodes(s[2..]);
    } else if |s| == 1 {
      assert |s| % 2 == 1;
    }
  }

  lemma {:induction false} HexEncodeShape(bytes: Bytes)
    ensures IsHex(HexEncode(bytes)) && |HexEncode(bytes)| == 2 * |bytes|
    ensures ':' !in HexEncode(bytes)
  {
    HexRoundTrip(bytes);
    HexDecodes(HexEncode(bytes));
    assert HexValue(':') == None;
  }

  lemma HexHasNoColon(s: string)
    requires IsHex(s)
    ensures ':' !in s
  {
    assert HexValue(':') == None;
  }

  // ---------------------------------------------------------------- splitting at ':'

  function Split(s: string): (parts: seq<string>)
    ensures |parts| >= 1
  {
    if s == "" then [""]
    else if s[0] == ':' then [""] + Split(s[1..])
    else var rest := Split(s[1..]); [[s[0]] + rest[0]] + rest[1..]
  }

  function Join(parts: seq<string>): string
    requires |parts| >= 1
  {
    if |parts| == 1 then parts[0] else parts[0] + ":" + Join(parts[1..])
  }

  ghost predicate ColonFree(parts: seq<string>) {
    forall p :: p in parts ==> ':' !in p
  }

  /** Growing the first part of a join by one character. */
  lemma JoinGrowFirst(c: char, parts: seq<string>)
    requires |parts| >= 1
    ensures Join([[c] + parts[0]] + parts[1..]) == [c] + Join(parts)
  {
    var tail := parts[1..];
    var grown := [[c] + parts[0]] + tail;
    assert grown[0] == [c] + parts[0] && grown[1..] == tail;
    if |parts| > 1 {
      Prepend(c, parts[0], Join(tail));
    }
  }

  lemma Prepend(c: char, head: string, tail: string)
    ensures ([c] + head) + ":" + tail == [c] + (head + ":" + tail)
  {
    assert ([c] + head) + ":" == [c] + (head + ":");
    assert ([c] + (head + ":")) + tail == [c] + ((head + ":") + tail);
  }

  /** Splitting is exactly the inverse of joining colon-free parts. */
  lemma {:induction false} SplitJoin(s: string)
    ensures Join(Split(s)) == s && ColonFree(Split(s))
  {
    if s == "" {
    } else if s[0] == ':' {
      SplitJoin(s[1..]);
      assert Split(s)[1..] == Split(s[1..]);
      assert s == "" + ":" + s[1..];
    } else {
      SplitJoin(s[1..]);
      JoinGrowFirst(s[0], Split(s[1..]));
      assert s == [s[0]] + s[1..];
    }
  }

  lemma {:induction false} SplitPrefix(head: string, tail: string)
    requires ':' !in head
    ensures Split(head + ":" + tail) == [head] + Split(tail)
  {
    var s := head + ":" + tail;
    if head == "" {
      assert s[1..] == tail;
    } else {
      assert s[1..] == head[1..] + ":" + tail;
      SplitPrefix(head[1..], tail);
      assert head == [head[0]] + head[1..];
    }
  }

  lemma {:induction false} SplitColonFree(s: string)
    requires ':' !in s
    ensures Split(s) == [s]
  {
    if s != "" {
      SplitColonFree(s[1..]);
      assert s == [s[0]] + s[1..];
    }
  }

  lemma {:induction false} JoinSplit(parts: seq<string>)
    requires |parts| >= 1 && ColonFree(parts)
    ensures Split(Join(parts)) == parts
  {
    if |parts| == 1 {
      SplitColonFree(parts[0]);
    } else {
      assert ColonFree(parts[1..]) by { assert forall p :: p in parts[1..] ==> p in parts; }
      JoinSplit(parts[1..]);
      SplitPrefix(parts[0], Join(parts[1..]));
      assert parts == [parts[0]] + parts[1..];
    }
  }

  // ---------------------------------------------------------------- printed forms

  function Tag(sealed: Bytes): Bytes
    requires |sealed| >= TAG_LEN
  {
    sealed[|sealed| - TAG_LEN..]
  }

  function Cipher(sealed: Bytes): Bytes
    requires |sealed| >= TAG_LEN
  {
    sealed[..|sealed| - TAG_LEN]
  }

  function V2Text(salt: Bytes, iv: Bytes, sealed: Bytes): string
    requires |sealed| >= TAG_LEN
  {
    V2_PREFIX + HexEncode(salt) + ":" + HexEncode(iv) + ":" + HexEncode(Tag(sealed)) + ":" + HexEncode(Cipher(sealed))
  }

  /** How the retired format was printed; it is only read now. */
  function V1Text(iv: Bytes, sealed: Bytes): string
    requires |sealed| >= TAG_LEN
  {
    HexEncode(iv) + ":" + HexEncode(Tag(sealed)) + ":" + HexEncode(Cipher(sealed))
  }

  // ---------------------------------------------------------------- the engine

  datatype DecryptError = NotEncrypted | BadFormat | AuthFailed | NotUtf8
  datatype FactRead = Readable(value: string) | Locked(reason: DecryptError)

  datatype Engine = Engine(prim: Primitives, passphrase: Bytes)
  {
    /** The v1 key: the first 32 passphrase bytes, padded with zero bytes. */
    function LegacyKey(): (k: Bytes)
      ensures |k| == KEY_LEN
      ensures k <= passphrase || (passphrase <= k && forall i :: |passphrase| <= i < |k| ==> k[i] == 0)
    {
      seq(KEY_LEN, i => if 0 <= i < |passphrase| then passphrase[i] else 0)
    }

    /** Always writes v2; `salt` and `iv` are the bytes drawn for this call. */
    function Encrypt(text: string, salt: Bytes, iv: Bytes): (r: Option<string>)
    {
      match prim.seal(prim.derive(passphrase, salt), iv, prim.toUtf8(text))
      case None => None
      case Some(sealed) =>
        if |sealed| < TAG_LEN then None else Some(V2Text(salt, iv, sealed))
    }

    function Open(key: Bytes, iv: Bytes, tag: Bytes, cipher: Bytes): (r: Result<string, DecryptError>) {
      match prim.unseal(key, iv, cipher + tag)
      case None => Failure(AuthFailed)
      case Some(plain) =>
        match prim.fromUtf8(plain)
        case None => Failure(NotUtf8)
        case Some(text) => Success(text)
    }

    function DecryptV2(rest: string): (r: Result<string, DecryptError>) {
      var parts := Split(rest);
      if |parts| != 4 then Failure(BadFormat)
      else
        match (HexDecode(parts[0]), HexDecode(parts[1]), HexDecode(parts[2]), HexDecode(parts[3]))
        case (Some(salt), Some(iv), Some(tag), Some(cipher)) =>
          if |salt| != SALT_LEN || |iv| != IV_LEN || |tag| != TAG_LEN then Failure(BadFormat)
          else Open(prim.derive(passphrase, salt), iv, tag, cipher)
        case _ => Failure(BadFormat)
    }

    function DecryptV1(text: string): (r: Result<string, DecryptError>) {
      var parts := Split(text);
      if |parts| != 3 then Failure(NotEncrypted)
      else
        match (HexDecode(parts[0]), HexDecode(parts[1]), HexDecode(parts[2]))
        case (Some(iv), Some(tag), Some(cipher)) =>
          if |iv| != IV_LEN || |tag| != TAG_LEN then Failure(BadFormat)
          else Open(LegacyKey(), iv, tag, cipher)
        case _ => Failure(BadFormat)
    }

    function TryDecrypt(text: string): (r: Result<string, DecryptError>) {
      if V2_PREFIX <= text then DecryptV2(text[|V2_PREFIX|..]) else DecryptV1(text)
    }

    /** The fail-closed read used by everything that shows a fact. */
    function ReadFact(text: string): (r: FactRead) {
      match TryDecrypt(text)
      case Success(plain) => Readable(plain)
      case Failure(NotEncrypted) => Readable(text)
      case Failure(BadFormat) => Readable(text)
      case Failure(e) => Locked(e)
    }

    /** True when this key is already the one protecting `text` in the current format. */
    predicate Protects(text: string) {
      V2_PREFIX <= text && TryDecrypt(text).Success?
    }
  }

  // ---------------------------------------------------------------- shapes, stated without parsing

  /** "v2:" followed by four hex fields of 32, 32, 32 and any even number of digits. */
  ghost predicate IsV2Text(text: string, salt: string, iv: string, tag: string, cipher: string) {
    && text == V2_PREFIX + salt + ":" + iv + ":" + tag + ":" + cipher
    && IsHex(salt) && IsHex(iv) && IsHex(tag) && IsHex(cipher)
    && |salt| == 2 * SALT_LEN && |iv| == 2 * IV_LEN && |tag| == 2 * TAG_LEN
  }

  ghost predicate IsV1Text(text: string, iv: string, tag: string, cipher: string) {
    && text == iv + ":" + tag + ":" + cipher
    && IsHex(iv) && IsHex(tag) && IsHex(cipher)
    && |iv| == 2 * IV_LEN && |tag| == 2 * TAG_LEN
  }

  ghost predicate LooksEncrypted(text: string) {
    || (exists salt, iv, tag, cipher :: IsV2Text(text, salt, iv, tag, cipher))
    || (exists iv, tag, cipher :: IsV1Text(text, iv, tag, cipher))
  }

  function Decoded(s: string): Bytes
    requires IsHex(s)
  {
    HexDecodes(s);
    HexDecode(s).value
  }

  lemma Join4(a: string, b: string, c: string, d: string)
    ensures Join([a, b, c, d]) == a + ":" + b + ":" + c + ":" + d
  {
    assert [a, b, c, d][1..] == [b, c, d];
    assert [b, c, d][1..] == [c, d];
    assert [c, d][1..] == [d];
    assert Join([c, d]) == c + ":" + d;
    assert Join([b, c, d]) == b + ":" + (c + ":" + d);
    assert a + ":" + (b + ":" + (c + ":" + d)) == a + ":" + b + ":" + c + ":" + d;
  }

  lemma Join3(a: string, b: string, c: string)
    ensures Join([a, b, c]) == a + ":" + b + ":" + c
  {
    assert [a, b, c][1..] == [b, c];
    assert [b, c][1..] == [c];
    assert Join([b, c]) == b + ":" + c;
    assert a + ":" + (b + ":" + c) == a + ":" + b + ":" + c;
  }

  /** A v2-shaped text is opened with the key derived from its own salt. */
  lemma DecryptOfV2Text(e: Engine, text: string, salt: string, iv: string, tag: string, cipher: string)
    requires IsV2Text(text, salt, iv, tag, cipher)
    ensures e.TryDecrypt(text)
         == e.Open(e.prim.derive(e.passphrase, Decoded(salt)), Decoded(iv), Decoded(tag), Decoded(cipher))
    ensures Split(text[|V2_PREFIX|..]) == [salt, iv, tag, cipher]
  {
    var parts := [salt, iv, tag, cipher];
    var rest := text[|V2_PREFIX|..];
    Join4(salt, iv, tag, cipher);
    assert V2_PREFIX + salt + ":" + iv + ":" + tag + ":" + cipher
        == V2_PREFIX + (salt + ":" + iv + ":" + tag + ":" + cipher);
    assert rest == Join(parts);
    forall p | p in parts ensures ':' !in p { HexHasNoColon(p); }
    JoinSplit(parts);
    HexDecodes(salt); HexDecodes(iv); HexDecodes(tag); HexDecodes(cipher);
  }

  lemma DecryptOfV1Text(e: Engine, text: string, iv: string, tag: string, cipher: string)
    requires IsV1Text(text, iv, tag, cipher)
    ensures e.TryDecrypt(text) == e.Open(e.LegacyKey(), Decoded(iv), Decoded(tag), Decoded(cipher))
  {
    var parts := [iv, tag, cipher];
    Join3(iv, tag, cipher);
    forall p | p in parts ensures ':' !in p { HexHasNoColon(p); }
    JoinSplit(parts);
    HexDecodes(iv); HexDecodes(tag); HexDecodes(cipher);
    V1IsNotV2(text, iv, tag, cipher);
  }

  lemma V2HasPrefix(text: string, salt: string, iv: string, tag: string, cipher: string)
    requires IsV2Text(text, salt, iv, tag, cipher)
    ensures V2_PREFIX <= text
  {
    assert text == V2_PREFIX + (salt + ":" + iv + ":" + tag + ":" + cipher);
  }

  /** A v1 text starts with a hex digit, and 'v' is not one. */
  lemma V1IsNotV2(text: string, iv: string, tag: string, cipher: string)
    requires IsV1Text(text, iv, tag, cipher)
    ensures !(V2_PREFIX <= text)
  {
    assert text[0] == iv[0];
    assert HexValue(iv[0]).Some?;
    assert V2_PREFIX[0] == 'v';
  }

  lemma V2FormatErrors(e: Engine, text: string)
    requires V2_PREFIX <= text
    ensures e.TryDecrypt(text) != Failure(NotEncrypted)
    ensures e.TryDecrypt(text) != Failure(BadFormat) <==>
              exists salt, iv, tag, cipher :: IsV2Text(text, salt, iv, tag, cipher)
  {
    var rest := text[|V2_PREFIX|..];
    var parts := Split(rest);
    SplitJoin(rest);
    if e.TryDecrypt(text) != Failure(BadFormat) {
      HexDecodes(parts[0]); HexDecodes(parts[1]); HexDecodes(parts[2]); HexDecodes(parts[3]);
      Join4(parts[0], parts[1], parts[2], parts[3]);
      assert parts == [parts[0], parts[1], parts[2], parts[3]];
      assert text == V2_PREFIX + rest;
      assert V2_PREFIX + (parts[0] + ":" + parts[1] + ":" + parts[2] + ":" + parts[3])
          == V2_PREFIX + parts[0] + ":" + parts[1] + ":" + parts[2] + ":" + parts[3];
      assert IsV2Text(text, parts[0], parts[1], parts[2], parts[3]);
    } else if exists salt, iv, tag, cipher :: IsV2Text(text, salt, iv, tag, cipher) {
      var salt, iv, tag, cipher :| IsV2Text(text, salt, iv, tag, cipher);
      DecryptOfV2Text(e, text, salt, iv, tag, cipher);
      assert false;
    }
  }

  lemma V1FormatErrors(e: Engine, text: string)
    requires !(V2_PREFIX <= text)
    ensures e.TryDecrypt(text) !in {Failure(NotEncrypted), Failure(BadFormat)} <==>
              exists iv, tag, cipher :: IsV1Text(text, iv, tag, cipher)
  {
    var parts := Split(text);
    SplitJoin(text);
    if e.TryDecrypt(text) !in {Failure(NotEncrypted), Failure(BadFormat)} {
      HexDecodes(parts[0]); HexDecodes(parts[1]); HexDecodes(parts[2]);
      Join3(parts[0], parts[1], parts[2]);
      assert parts == [parts[0], parts[1], parts[2]];
      assert IsV1Text(text, parts[0], parts[1], parts[2]);
    } else if exists iv, tag, cipher :: IsV1Text(text, iv, tag, cipher) {
      var iv, tag, cipher :| IsV1Text(text, iv, tag, cipher);
      DecryptOfV1Text(e, text, iv, tag, cipher);
      assert false;
    }
  }

  /** The parser accepts exactly the shapes: a format error is returned if and only if the text
      has neither shape.  It does not depend on the key. */
  lemma FormatErrorsAreShapeErrors(e: Engine, text: string)
    ensures e.TryDecrypt(text) in {Failure(NotEncrypted), Failure(BadFormat)} <==> !LooksEncrypted(text)
  {
    if V2_PREFIX <= text {
      V2FormatErrors(e, text);
      if iv, tag, cipher :| IsV1Text(text, iv, tag, cipher) {
        V1IsNotV2(text, iv, tag, cipher);
        assert false;
      }
    } else {
      V1FormatErrors(e, text);
      if salt, iv, tag, cipher :| IsV2Text(text, salt, iv, tag, cipher) {
        V2HasPrefix(text, salt, iv, tag, cipher);
        assert false;
      }
    }
  }

  /** Two keys always agree on whether a text is ciphertext-shaped. */
  lemma FormatErrorsIgnoreTheKey(a: Engine, b: Engine, text: string)
    ensures a.TryDecrypt(text) == Failure(NotEncrypted) <==> b.TryDecrypt(text) == Failure(NotEncrypted)
    ensures a.TryDecrypt(text) == Failure(BadFormat) <==> b.TryDecrypt(text) == Failure(BadFormat)
  {
  }

  // ---------------------------------------------------------------- round trips

  lemma DecodedEncode(bytes: Bytes)
    ensures IsHex(HexEncode(bytes)) && |HexEncode(bytes)| == 2 * |bytes|
    ensures Decoded(HexEncode(bytes)) == bytes
  {
    HexEncodeShape(bytes);
    HexRoundTrip(bytes);
  }

  lemma V2TextShape(salt: Bytes, iv: Bytes, sealed: Bytes)
    requires |salt| == SALT_LEN && |iv| == IV_LEN && |sealed| >= TAG_LEN
    ensures IsV2Text(V2Text(salt, iv, sealed), HexEncode(salt), HexEncode(iv),
                     HexEncode(Tag(sealed)), HexEncode(Cipher(sealed)))
  {
    DecodedEncode(salt); DecodedEncode(iv); DecodedEncode(Tag(sealed)); DecodedEncode(Cipher(sealed));
  }

  lemma V2TextOpens(e: Engine, salt: Bytes, iv: Bytes, sealed: Bytes)
    requires |salt| == SALT_LEN && |iv| == IV_LEN && |sealed| >= TAG_LEN
    ensures e.TryDecrypt(V2Text(salt, iv, sealed))
         == e.Open(e.prim.derive(e.passphrase, salt), iv, Tag(sealed), Cipher(sealed))
  {
    V2TextShape(salt, iv, sealed);
    DecryptOfV2Text(e, V2Text(salt, iv, sealed), HexEncode(salt), HexEncode(iv),
                    HexEncode(Tag(sealed)), HexEncode(Cipher(sealed)));
    DecodedEncode(salt); DecodedEncode(iv); DecodedEncode(Tag(sealed)); DecodedEncode(Cipher(sealed));
  }

  /** Sealing succeeds on the library's side; nothing else may refuse a text. */
  ghost predicate Seals(e: Engine, text: string, salt: Bytes, iv: Bytes) {
    e.prim.seal(e.prim.derive(e.passphrase, salt), iv, e.prim.toUtf8(text)).Some?
  }

  lemma EncryptSucceedsIff(e: Engine, text: string, salt: Bytes, iv: Bytes)
    requires e.prim.Laws()
    ensures e.Encrypt(text, salt, iv).Some? <==> Seals(e, text, salt, iv)
  {
    var c := e.prim.seal(e.prim.derive(e.passphrase, salt), iv, e.prim.toUtf8(text));
    assert c.Some? ==> |c.value| == |e.prim.toUtf8(text)| + TAG_LEN;
  }

  /** What `Encrypt` prints: "v2:" and exactly four hex fields of 32, 32, 32 and two digits a byte. */
  lemma EncryptShape(e: Engine, text: string, salt: Bytes, iv: Bytes)
    requires e.prim.Laws() && |salt| == SALT_LEN && |iv| == IV_LEN && Seals(e, text, salt, iv)
    ensures e.Encrypt(text, salt, iv).Some?
    ensures var printed := e.Encrypt(text, salt, iv).value;
            && "v2:" <= printed && |printed| == 102 + 2 * |e.prim.toUtf8(text)|
            && exists tag, cipher ::
              && IsV2Text(printed, HexEncode(salt), HexEncode(iv), tag, cipher)
              && |cipher| == 2 * |e.prim.toUtf8(text)|
              && Split(printed[|V2_PREFIX|..]) == [HexEncode(salt), HexEncode(iv), tag, cipher]
  {
    EncryptSucceedsIff(e, text, salt, iv);
    var sealed := e.prim.seal(e.prim.derive(e.passphrase, salt), iv, e.prim.toUtf8(text)).value;
    var printed := e.Encrypt(text, salt, iv).value;
    V2TextShape(salt, iv, sealed);
    V2HasPrefix(printed, HexEncode(salt), HexEncode(iv), HexEncode(Tag(sealed)), HexEncode(Cipher(sealed)));
    DecryptOfV2Text(e, printed, HexEncode(salt), HexEncode(iv), HexEncode(Tag(sealed)), HexEncode(Cipher(sealed)));
    DecodedEncode(Cipher(sealed));
  }

  /** Round trip of the current format, for every text (the empty one included), salt and nonce. */
  lemma EncryptRoundTrip(e: Engine, text: string, salt: Bytes, iv: Bytes)
    requires e.prim.Laws() && |salt| == SALT_LEN && |iv| == IV_LEN && Seals(e, text, salt, iv)
    ensures e.Encrypt(text, salt, iv).Some?
    ensures e.TryDecrypt(e.Encrypt(text, salt, iv).value) == Success(text)
    ensures e.Protects(e.Encrypt(text, salt, iv).value)
    ensures e.ReadFact(e.Encrypt(text, salt, iv).value) == Readable(text)
  {
    EncryptSucceedsIff(e, text, salt, iv);
    var sealed := e.prim.seal(e.prim.derive(e.passphrase, salt), iv, e.prim.toUtf8(text)).value;
    V2TextOpens(e, salt, iv, sealed);
    assert Cipher(sealed) + Tag(sealed) == sealed;
    V2TextShape(salt, iv, sealed);
    V2HasPrefix(V2Text(salt, iv, sealed), HexEncode(salt), HexEncode(iv), HexEncode(Tag(sealed)), HexEncode(Cipher(sealed)));
  }

  /** What a ciphertext-shaped text decrypts to, by format: the key is derived from the text's own salt,
      or is the padded passphrase; the tag goes behind the cipher bytes; a failed authentication and
      bytes that are no text are told apart. */
  lemma DecryptMeaning(e: Engine, text: string, salt: string, iv: string, tag: string, cipher: string)
    requires IsV2Text(text, salt, iv, tag, cipher) || (salt == "" && IsV1Text(text, iv, tag, cipher))
    ensures var key := if IsV2Text(text, salt, iv, tag, cipher) then e.prim.derive(e.passphrase, Decoded(salt)) else e.LegacyKey();
            var plain := e.prim.unseal(key, Decoded(iv), Decoded(cipher) + Decoded(tag));
      && (e.TryDecrypt(text) == Failure(AuthFailed) <==> plain.None?)
      && (e.TryDecrypt(text) == Failure(NotUtf8) <==> plain.Some? && e.prim.fromUtf8(plain.value).None?)
      && (e.TryDecrypt(text).Success? ==> plain.Some? && e.prim.fromUtf8(plain.value) == Some(e.TryDecrypt(text).value))
      && (plain.Some? && e.prim.fromUtf8(plain.value).Some? ==> e.TryDecrypt(text).Success?)
  {
    if IsV2Text(text, salt, iv, tag, cipher) {
      DecryptOfV2Text(e, text, salt, iv, tag, cipher);
    } else {
      DecryptOfV1Text(e, text, iv, tag, cipher);
    }
  }

  /** A text written by the retired format under the zero-padded passphrase is still readable,
      and is never mistaken for the current format. */
  lemma V1RoundTrip(e: Engine, text: string, iv: Bytes)
    requires e.prim.Laws() && |iv| == IV_LEN
    requires e.prim.seal(e.LegacyKey(), iv, e.prim.toUtf8(text)).Some?
    ensures var sealed := e.prim.seal(e.LegacyKey(), iv, e.prim.toUtf8(text)).value;
            e.TryDecrypt(V1Text(iv, sealed)) == Success(text) && !e.Protects(V1Text(iv, sealed))
  {
    var sealed := e.prim.seal(e.LegacyKey(), iv, e.prim.toUtf8(text)).value;
    var printed := V1Text(iv, sealed);
    DecodedEncode(iv); DecodedEncode(Tag(sealed)); DecodedEncode(Cipher(sealed));
    assert IsV1Text(printed, HexEncode(iv), HexEncode(Tag(sealed)), HexEncode(Cipher(sealed)));
    DecryptOfV1Text(e, printed, HexEncode(iv), HexEncode(Tag(sealed)), HexEncode(Cipher(sealed)));
    V1IsNotV2(printed, HexEncode(iv), HexEncode(Tag(sealed)), HexEncode(Cipher(sealed)));
    assert Cipher(sealed) + Tag(sealed) == sealed;
  }

  /** Fail-closed: a ciphertext-shaped text is shown only as the plaintext its key authenticates;
      one that fails to open is locked, and only such texts are locked. */
  lemma ReadFactFailsClosed(e: Engine, text: string)
    ensures e.ReadFact(text).Locked? <==> LooksEncrypted(text) && e.TryDecrypt(text).Failure?
    ensures !LooksEncrypted(text) ==> e.ReadFact(text) == Readable(text)
    ensures LooksEncrypted(text) && e.ReadFact(text).Readable? ==>
              e.TryDecrypt(text) == Success(e.ReadFact(text).value)
  {
    FormatErrorsAreShapeErrors(e, text);
  }

  /** Unary code: a character is its code point in ones, then a zero.  Enough to show that the
      assumed laws are satisfiable. */
  function Unary(s: string): Bytes {
    if s == "" then [] else seq(s[0] as int, i => 1) + [0] + Unary(s[1..])
  }

  function FromUnary(b: Bytes, ones: nat): Option<string> {
    if b == [] then Some("")
    else if b[0] != 0 then FromUnary(b[1..], ones + 1)
    else if 0xD800 <= ones < 0xE000 || 0x11_0000 <= ones then None
    else
      match FromUnary(b[1..], 0)
      case None => None
      case Some(rest) => Some([ones as char] + rest)
  }

  lemma {:induction false} SkipOnes(n: nat, tail: Bytes, ones: nat)
    ensures FromUnary(seq(n, i => 1) + tail, ones) == FromUnary(tail, ones + n)
  {
    var b := seq(n, i => 1) + tail;
    if n == 0 {
      assert b == tail;
    } else {
      assert b[1..] == seq(n - 1, i => 1) + tail;
      SkipOnes(n - 1, tail, ones + 1);
    }
  }

  lemma {:induction false} FromUnaryUnary(s: string)
    ensures FromUnary(Unary(s), 0) == Some(s)
  {
    if s != "" {
      FromUnaryUnary(s[1..]);
      var tail := [0] + Unary(s[1..]);
      assert Unary(s) == seq(s[0] as int, i => 1) + tail;
      SkipOnes(s[0] as int, tail, 0);
      assert tail[1..] == Unary(s[1..]);
      assert s == [s[0]] + s[1..];
    }
  }

  /** The assumed laws are satisfiable, so the results above are not empty. */
  lemma LawsAreSatisfiable() returns (p: Primitives)
    ensures p.Laws()
  {
    p := Primitives(
      (k: Bytes, n: Bytes, m: Bytes) => Some(m + seq(TAG_LEN, i => 0)),
      (k: Bytes, n: Bytes, c: Bytes) => if |c| < TAG_LEN then None else Some(c[..|c| - TAG_LEN]),
      (k: Bytes, salt: Bytes) => salt,
      Unary, b => FromUnary(b, 0));
    forall s ensures p.fromUtf8(p.toUtf8(s)) == Some(s) { FromUnaryUnary(s); }
  }
}

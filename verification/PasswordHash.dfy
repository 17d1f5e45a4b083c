/**
  The stored password string of gateway-go/internal/auth/password.go: HashPassword prints it,
  VerifyPassword parses it.

  The key-derivation function is a parameter.  Base64 is the standard alphabet without padding
  (sections 3.2 and 4 of RFC 4648); like Go's decoder, `Decode` skips line breaks and does not
  look at the unused bits of the last character.
 */
module PasswordHash {
  import opened Octets
  import opened Text
  import opened Wrappers

  // ---------------------------------------------------------------- base64

  type sextet = n: nat | n < 64

  /** The base 64 alphabet: A-Z, a-z, 0-9, + and /. */
  function CharOf(v: sextet): char {
    if v < 26 then 'A' + v as char
    else if v < 52 then 'a' + (v - 26) as char
    else if v < 62 then '0' + (v - 52) as char
    else if v == 62 then '+' else '/'
  }

  function ValueOf(c: char): Option<sextet> {
    if 'A' <= c <= 'Z' then Some((c - 'A') as sextet)
    else if 'a' <= c <= 'z' then Some((c - 'a') as sextet + 26)
    else if '0' <= c <= '9' then Some((c - '0') as sextet + 52)
    else if c == '+' then Some(62)
    else if c == '/' then Some(63)
    else None
  }

  /** Bytes as six-bit values, high bits first; the last value is filled up with zero bits. */
  function Sextets(bs: Bytes): seq<sextet> {
    if bs == [] then []
    else
      var a := bs[0] as nat;
      if |bs| == 1 then [a / 4, a % 4 * 16]
      else
        var b := bs[1] as nat;
        if |bs| == 2 then [a / 4, a % 4 * 16 + b / 16, b % 16 * 4]
        else
          var c := bs[2] as nat;
          [a / 4, a % 4 * 16 + b / 16, b % 16 * 4 + c / 64, c % 64] + Sextets(bs[3..])
  }

  /** The bytes that six-bit values spell; a single value left over spells nothing. */
  function FromSextets(vs: seq<sextet>): Result<Bytes> {
    if vs == [] then Success([])
    else if |vs| == 1 then Failure
    else
      var a := (vs[0] as int * 4 + vs[1] as int / 16) as byte;
      if |vs| == 2 then Success([a])
      else
        var b := (vs[1] as int % 16 * 16 + vs[2] as int / 4) as byte;
        if |vs| == 3 then Success([a, b])
        else
          var c := (vs[2] as int % 4 * 64 + vs[3] as int) as byte;
          match FromSextets(vs[4..])
          case Failure => Failure
          case Success(rest) => Success([a, b, c] + rest)
  }

  function Chars(vs: seq<sextet>): (s: string)
    ensures |s| == |vs|
  {
    if vs == [] then [] else [CharOf(vs[0])] + Chars(vs[1..])
  }

  function Values(s: string): Result<seq<sextet>> {
    if s == [] then Success([])
    else if s[0] == '\n' || s[0] == '\r' then Values(s[1..])
    else match (ValueOf(s[0]), Values(s[1..]))
      case (Some(v), Success(rest)) => Success([v] + rest)
      case _ => Failure
  }

  function Encode(bs: Bytes): string {
    Chars(Sextets(bs))
  }

  function Decode(s: string): Result<Bytes> {
    match Values(s)
    case Failure => Failure
    case Success(vs) => FromSextets(vs)
  }

  lemma QuantumRoundTrip(a: nat, b: nat, c: nat)
    requires a < 256 && b < 256 && c < 256
    ensures a / 4 * 4 + (a % 4 * 16 + b / 16) / 16 == a
    ensures (a % 4 * 16 + b / 16) % 16 * 16 + (b % 16 * 4 + c / 64) / 4 == b
    ensures (b % 16 * 4 + c / 64) % 4 * 64 + c % 64 == c
  {
  }

  lemma {:induction false} FromSextetsInverts(bs: Bytes)
    ensures FromSextets(Sextets(bs)) == Success(bs)
  {
    if bs != [] {
      QuantumRoundTrip(bs[0] as nat, if |bs| > 1 then bs[1] as nat else 0, if |bs| > 2 then bs[2] as nat else 0);
    }
    if |bs| >= 3 {
      FromSextetsInverts(bs[3..]);
      assert Sextets(bs)[4..] == Sextets(bs[3..]);
      assert bs == [bs[0], bs[1], bs[2]] + bs[3..];
    } else if |bs| == 2 {
      assert bs == [bs[0], bs[1]];
    } else if |bs| == 1 {
      assert bs == [bs[0]];
    }
  }

  lemma CharRoundTrip(v: sextet)
    ensures ValueOf(CharOf(v)) == Some(v)
    ensures CharOf(v) != '$' && CharOf(v) != '\n' && CharOf(v) != '\r'
  {
  }

  /** The alphabet: 26 capitals, 26 small letters, ten digits, plus and slash. */
  lemma AlphabetIsStandard()
    ensures CharOf(0) == 'A' && CharOf(26) == 'a' && CharOf(52) == '0' && CharOf(62) == '+' && CharOf(63) == '/'
    ensures forall v: sextet | v < 61 && v != 25 && v != 51 :: CharOf(v + 1) as int == CharOf(v) as int + 1
  {
  }

  /** Each group of three bytes is four six-bit values, most significant first. */
  lemma {:induction false} SextetsSpellBytes(bs: Bytes, k: nat)
    requires 3 * k + 2 < |bs|
    ensures |Sextets(bs)| >= 4 * k + 4
    ensures var vs := Sextets(bs);
            bs[3 * k] as int * 65536 + bs[3 * k + 1] as int * 256 + bs[3 * k + 2] as int ==
            vs[4 * k] as int * 262144 + vs[4 * k + 1] as int * 4096 + vs[4 * k + 2] as int * 64 + vs[4 * k + 3] as int
    decreases k
  {
    if k == 0 {
      QuantumRoundTrip(bs[0] as nat, bs[1] as nat, bs[2] as nat);
    } else {
      SextetsSpellBytes(bs[3..], k - 1);
      assert Sextets(bs)[4..] == Sextets(bs[3..]);
    }
  }

  lemma {:induction false} ValuesInvert(vs: seq<sextet>)
    ensures Values(Chars(vs)) == Success(vs)
    ensures '$' !in Chars(vs)
  {
    if vs != [] {
      ValuesInvert(vs[1..]);
      CharRoundTrip(vs[0]);
      assert Chars(vs)[1..] == Chars(vs[1..]);
      assert vs == [vs[0]] + vs[1..];
    }
  }

  /** Decoding inverts encoding on every byte string, and the text has none of the separators. */
  lemma Base64RoundTrip(bs: Bytes)
    ensures Decode(Encode(bs)) == Success(bs)
    ensures '$' !in Encode(bs)
  {
    ValuesInvert(Sextets(bs));
    FromSextetsInverts(bs);
  }

  // ---------------------------------------------------------------- fields

  /** strings.Split(s, "$"). */
  function Split(s: string): (r: seq<string>)
    ensures |r| > 0
  {
    if s == [] then [[]]
    else
      var r := Split(s[1..]);
      if s[0] == '$' then [[]] + r else [[s[0]] + r[0]] + r[1..]
  }

  lemma {:induction false} SplitField(a: string, rest: string)
    requires '$' !in a
    ensures Split(a + "$" + rest) == [a] + Split(rest)
    ensures Split(a) == [a]
  {
    var s := a + "$" + rest;
    if a == [] {
      assert s == "$" + rest && s[1..] == rest;
    } else {
      SplitField(a[1..], rest);
      assert s[1..] == a[1..] + "$" + rest;
      assert a == [a[0]] + a[1..];
    }
  }

  /** Strings without the separator, joined by it, split into themselves ... */
  lemma {:induction false} SplitJoin(fields: seq<string>)
    requires fields != [] && forall i | 0 <= i < |fields| :: '$' !in fields[i]
    ensures Split(Join(fields, "$")) == fields
  {
    if |fields| == 1 {
      SplitField(fields[0], "");
    } else {
      SplitJoin(fields[1..]);
      SplitField(fields[0], Join(fields[1..], "$"));
    }
  }

  /** ... and what a string splits into joins to it again. */
  lemma {:induction false} JoinSplit(s: string)
    ensures Join(Split(s), "$") == s
    ensures forall i | 0 <= i < |Split(s)| :: '$' !in Split(s)[i]
  {
    if s == [] {
      assert Split(s) == [[]];
    } else {
      var r := Split(s[1..]);
      JoinSplit(s[1..]);
      assert s == [s[0]] + s[1..];
      if s[0] == '$' {
        assert ([[]] + r)[1..] == r;
        assert Join([[]] + r, "$") == [] + "$" + Join(r, "$");
      } else {
        var q := [[s[0]] + r[0]] + r[1..];
        assert q[1..] == r[1..];
        assert Join(q, "$") == [s[0]] + Join(r, "$");
      }
    }
  }

  // ---------------------------------------------------------------- parameters

  datatype Params = Params(memory: nat, time: nat, threads: nat)

  /** The parameters that fit the variables they are scanned into. */
  predicate FitsWords(p: Params) {
    p.memory < 0x1_0000_0000 && p.time < 0x1_0000_0000 && p.threads < 0x100
  }

  function PrintParams(p: Params): string {
    "m=" + (Decimal(p.memory) + (",t=" + (Decimal(p.time) + (",p=" + Decimal(p.threads)))))
  }

  predicate IsBlank(c: char) {
    c == ' ' || c == '\t'
  }

  function SkipBlanks(s: string): string {
    if s != [] && IsBlank(s[0]) then SkipBlanks(s[1..]) else s
  }

  /** %d into an unsigned word: blanks are skipped, at least one digit, no overflow. */
  function ScanWord(s: string, limit: nat): Result<(nat, string)> {
    var t := SkipBlanks(s);
    var n := DigitPrefix(t);
    if n == 0 || Numeral(t[..n]) >= limit then Failure else Success((Numeral(t[..n]), t[n..]))
  }

  /** A literal piece of the format, which must be there as it is, and the number behind it. */
  function ScanField(s: string, literal: string, limit: nat): Result<(nat, string)> {
    if literal <= s then ScanWord(s[|literal|..], limit) else Failure
  }

  /** Sscanf(s, "m=%d,t=%d,p=%d"); what follows the last number is not looked at. */
  function ScanParams(s: string): Result<Params> {
    match ScanField(s, "m=", 0x1_0000_0000)
    case Failure => Failure
    case Success((memory, s1)) =>
      match ScanField(s1, ",t=", 0x1_0000_0000)
      case Failure => Failure
      case Success((time, s2)) =>
        match ScanField(s2, ",p=", 0x100)
        case Failure => Failure
        case Success((threads, _)) => Success(Params(memory, time, threads))
  }

  lemma {:induction false} ScanPrintedField(literal: string, n: nat, rest: string, limit: nat)
    requires n < limit && (rest == [] || !IsDigit(rest[0]))
    ensures ScanField(literal + (Decimal(n) + rest), literal, limit) == Success((n, rest))
  {
    var d := Decimal(n);
    assert literal <= literal + (d + rest) && (literal + (d + rest))[|literal|..] == d + rest;
    DecimalReadsBack(n);
    assert IsDigit(d[0]) && (d + rest)[0] == d[0];
    DigitPrefixStops(d, rest);
    assert (d + rest)[..|d|] == d && (d + rest)[|d|..] == rest;
  }

  /** Printed parameters scan back to themselves. */
  lemma ParamsRoundTrip(p: Params)
    requires FitsWords(p)
    ensures ScanParams(PrintParams(p)) == Success(p)
  {
    var threads := ",p=" + (Decimal(p.threads) + "");
    var time := ",t=" + (Decimal(p.time) + threads);
    assert PrintParams(p) == "m=" + (Decimal(p.memory) + time) by {
      assert Decimal(p.threads) + "" == Decimal(p.threads);
    }
    ScanPrintedField("m=", p.memory, time, 0x1_0000_0000);
    ScanPrintedField(",t=", p.time, threads, 0x1_0000_0000);
    ScanPrintedField(",p=", p.threads, "", 0x100);
  }

  ghost predicate AllBlank(s: string) {
    forall i | 0 <= i < |s| :: s[i] == ' ' || s[i] == '\t'
  }

  /** Blanks, and at least one digit of a number that fits. */
  ghost predicate Number(blanks: string, digits: string, limit: nat) {
    AllBlank(blanks) && digits != [] && AllDigits(digits) && Numeral(digits) < limit
  }

  ghost predicate NoDigitNext(s: string) {
    s == [] || !IsDigit(s[0])
  }

  lemma {:induction false} BlanksSkipped(blanks: string, t: string)
    requires AllBlank(blanks) && (t == [] || !IsBlank(t[0]))
    ensures SkipBlanks(blanks + t) == t
  {
    if blanks != [] {
      BlanksSkipped(blanks[1..], t);
      assert (blanks + t)[1..] == blanks[1..] + t;
    } else {
      assert blanks + t == t;
    }
  }

  lemma {:induction false} BlanksBefore(s: string) returns (blanks: string)
    ensures AllBlank(blanks) && s == blanks + SkipBlanks(s)
  {
    blanks := [];
    if s != [] && IsBlank(s[0]) {
      blanks := BlanksBefore(s[1..]);
      assert s == [s[0]] + s[1..];
      blanks := [s[0]] + blanks;
    }
  }

  lemma {:induction false} FieldScans(literal: string, blanks: string, digits: string, rest: string, limit: nat)
    requires Number(blanks, digits, limit) && NoDigitNext(rest)
    ensures ScanField(literal + (blanks + (digits + rest)), literal, limit) == Success((Numeral(digits), rest))
  {
    var t := digits + rest;
    assert literal <= literal + (blanks + t) && (literal + (blanks + t))[|literal|..] == blanks + t;
    BlanksSkipped(blanks, t);
    DigitPrefixStops(digits, rest);
    assert t[..|digits|] == digits && t[|digits|..] == rest;
  }

  lemma {:induction false} FieldShape(s: string, literal: string, limit: nat)
    returns (blanks: string, digits: string, rest: string)
    requires ScanField(s, literal, limit).Success?
    ensures Number(blanks, digits, limit) && NoDigitNext(rest) && s == literal + (blanks + (digits + rest))
    ensures ScanField(s, literal, limit) == Success((Numeral(digits), rest))
  {
    var u := s[|literal|..];
    blanks := BlanksBefore(u);
    var t := SkipBlanks(u);
    var n := DigitPrefix(t);
    digits, rest := t[..n], t[n..];
    assert t == digits + rest && s == literal + u;
  }

  /** Three numbers, each with its literal before it and perhaps blanks between, and anything behind the last. */
  ghost predicate Spelled(s: string, m: string, memory: string, t: string, time: string, p: string, threads: string,
                          rest: string)
  {
    && Number(m, memory, 0x1_0000_0000) && Number(t, time, 0x1_0000_0000) && Number(p, threads, 0x100)
    && NoDigitNext(rest)
    && s == "m=" + (m + (memory + (",t=" + (t + (time + (",p=" + (p + (threads + rest))))))))
  }

  /** Strings of this form are scanned ... */
  lemma {:induction false} ParamsScan(s: string, m: string, memory: string, t: string, time: string, p: string,
                                      threads: string, rest: string)
    requires Spelled(s, m, memory, t, time, p, threads, rest)
    ensures ScanParams(s) == Success(Params(Numeral(memory), Numeral(time), Numeral(threads)))
  {
    hide ScanField, Number, Numeral;
    var s2 := ",p=" + (p + (threads + rest));
    var s1 := ",t=" + (t + (time + s2));
    FieldScans("m=", m, memory, s1, 0x1_0000_0000);
    FieldScans(",t=", t, time, s2, 0x1_0000_0000);
    FieldScans(",p=", p, threads, rest, 0x100);
  }

  /** ... and no others. */
  lemma ScannedParams(s: string)
    returns (m: string, memory: string, t: string, time: string, p: string, threads: string, rest: string)
    requires ScanParams(s).Success?
    ensures Spelled(s, m, memory, t, time, p, threads, rest)
    ensures ScanParams(s) == Success(Params(Numeral(memory), Numeral(time), Numeral(threads)))
  {
    hide ScanField, Number, Numeral;
    var s1, s2: string;
    m, memory, s1 := FieldShape(s, "m=", 0x1_0000_0000);
    t, time, s2 := FieldShape(s1, ",t=", 0x1_0000_0000);
    p, threads, rest := FieldShape(s2, ",p=", 0x100);
  }

  lemma {:induction false} DecimalHasNoDollar(n: nat)
    ensures '$' !in Decimal(n)
  {
    DecimalReadsBack(n);
  }

  lemma ParamsHaveNoDollar(p: Params)
    ensures '$' !in PrintParams(p)
  {
    DecimalHasNoDollar(p.memory);
    DecimalHasNoDollar(p.time);
    DecimalHasNoDollar(p.threads);
  }

  // ---------------------------------------------------------------- hash and verify

  /** argon2.IDKey(password, salt, time, memory, threads, keyLen). */
  type Kdf = (string, Bytes, nat, nat, nat, nat) -> Bytes

  const DEFAULT_PARAMS := Params(64 * 1024, 1, 4)
  const KEY_LENGTH: nat := 32

  /** The string that HashPassword builds. */
  function Stored(p: Params, salt: Bytes, key: Bytes): string {
    "$argon2id$v=19$" + PrintParams(p) + "$" + Encode(salt) + "$" + Encode(key)
  }

  /** HashPassword, given what the random source returned. */
  function HashPassword(kdf: Kdf, password: string, salt: Result<Bytes>): Result<string> {
    match salt
    case Failure => Failure
    case Success(bytes) =>
      var p := DEFAULT_PARAMS;
      Success(Stored(p, bytes, kdf(password, bytes, p.time, p.memory, p.threads, KEY_LENGTH)))
  }

  /** An error, a panic inside the key derivation (no rounds or no threads), or an answer. */
  datatype Verdict = Malformed | Panicked | Checked(accepted: bool)

  /** The three parts of a stored string that VerifyPassword uses. */
  function ParseStored(encoded: string): Result<(Params, Bytes, Bytes)> {
    var parts := Split(encoded);
    if |parts| != 6 || parts[1] != "argon2id" then Failure
    else match (ScanParams(parts[3]), Decode(parts[4]), Decode(parts[5]))
      case (Success(p), Success(salt), Success(key)) => Success((p, salt, key))
      case _ => Failure
  }

  function VerifyPassword(kdf: Kdf, encoded: string, password: string): Verdict {
    match ParseStored(encoded)
    case Failure => Malformed
    case Success((p, salt, expected)) =>
      if p.time < 1 || p.threads < 1 then Panicked
      else Checked(kdf(password, salt, p.time, p.memory, p.threads, |expected|) == expected)
  }

  /** The stored string parses exactly if it has six fields, the second says argon2id and the last three parse. */
  lemma {:induction false} ParsedFields(encoded: string, fields: seq<string>)
    requires fields != [] && encoded == Join(fields, "$") && forall i | 0 <= i < |fields| :: '$' !in fields[i]
    ensures ParseStored(encoded).Success? <==>
            && |fields| == 6 && fields[1] == "argon2id"
            && ScanParams(fields[3]).Success? && Decode(fields[4]).Success? && Decode(fields[5]).Success?
    ensures ParseStored(encoded).Success? ==>
              ParseStored(encoded).value ==
              (ScanParams(fields[3]).value, Decode(fields[4]).value, Decode(fields[5]).value)
  {
    hide ScanParams, Decode, Split, Join;
    SplitJoin(fields);
  }

  /** The string carries parameters that argon2 cannot run with: no rounds or no threads. */
  predicate CannotRun(encoded: string) {
    var read := ParseStored(encoded);
    read.Success? && (read.value.0.time == 0 || read.value.0.threads == 0)
  }

  /** The string carries parameters, salt and key, and the password derives to that key. */
  predicate Matches(kdf: Kdf, encoded: string, password: string) {
    var read := ParseStored(encoded);
    && read.Success?
    && var (p, salt, key) := read.value;
    p.time > 0 && p.threads > 0 && kdf(password, salt, p.time, p.memory, p.threads, |key|) == key
  }

  lemma VerdictMeans(kdf: Kdf, encoded: string, password: string)
    ensures var v := VerifyPassword(kdf, encoded, password);
            && (v.Panicked? <==> CannotRun(encoded))
            && (v == Checked(true) <==> Matches(kdf, encoded, password))
            && (v.Malformed? <==> ParseStored(encoded).Failure?)
  {
  }

  function StoredFields(p: Params, salt: Bytes, key: Bytes): seq<string> {
    ["", "argon2id", "v=19", PrintParams(p), Encode(salt), Encode(key)]
  }

  lemma StoredIsJoined(p: Params, salt: Bytes, key: Bytes)
    ensures Stored(p, salt, key) == Join(StoredFields(p, salt, key), "$")
  {
    JoinSix("", "argon2id", "v=19", PrintParams(p), Encode(salt), Encode(key), "$");
    hide Join, PrintParams, Encode;
    assert "" + "$" + "argon2id" + "$" + "v=19" + "$" == "$argon2id$v=19$";
  }

  /** Every stored string has six fields and parses back to its parameters, salt and key. */
  lemma StoredRoundTrip(p: Params, salt: Bytes, key: Bytes)
    requires FitsWords(p)
    ensures Split(Stored(p, salt, key)) == StoredFields(p, salt, key)
    ensures ParseStored(Stored(p, salt, key)) == Success((p, salt, key))
  {
    ParamsHaveNoDollar(p);
    ParamsRoundTrip(p);
    Base64RoundTrip(salt);
    Base64RoundTrip(key);
    StoredIsJoined(p, salt, key);
    SplitJoin(StoredFields(p, salt, key));
  }

  /**
    Verification derives with the parameters the string carries, whatever the current defaults,
    and accepts exactly the passwords that derive to the stored key.
   */
  lemma VerifyAcceptsExactly(kdf: Kdf, p: Params, salt: Bytes, key: Bytes, password: string)
    requires FitsWords(p) && p.time >= 1 && p.threads >= 1
    ensures VerifyPassword(kdf, Stored(p, salt, key), password) ==
            Checked(kdf(password, salt, p.time, p.memory, p.threads, |key|) == key)
  {
    StoredRoundTrip(p, salt, key);
  }

  /**
    For any derivation that returns keys of the length asked for, a password verifies against the
    hash of another exactly if both derive to the same key; in particular against its own hash.
   */
  lemma HashedPasswordVerifies(kdf: Kdf, password: string, salt: Bytes, attempt: string)
    requires forall pw, s, t, m, h, n :: |kdf(pw, s, t, m, h, n)| == n
    ensures var p := DEFAULT_PARAMS;
            var r := HashPassword(kdf, password, Success(salt));
            r.Success? && VerifyPassword(kdf, r.value, attempt) ==
            Checked(kdf(attempt, salt, p.time, p.memory, p.threads, KEY_LENGTH)
                    == kdf(password, salt, p.time, p.memory, p.threads, KEY_LENGTH))
  {
    hide ParseStored, Stored;
    var p := DEFAULT_PARAMS;
    VerifyAcceptsExactly(kdf, p, salt, kdf(password, salt, p.time, p.memory, p.threads, KEY_LENGTH), attempt);
  }

  lemma DefaultsPrinted()
    ensures PrintParams(DEFAULT_PARAMS) == "m=65536,t=1,p=4"
  {
    assert Decimal(65) == "65" && Decimal(655) == "655" && Decimal(6553) == "6553" && Decimal(65536) == "65536";
    assert Decimal(1) == "1" && Decimal(4) == "4";
  }

  /** What is stored for a password, with 64 MiB, one round, four threads and a key of 32 bytes. */
  lemma HashedPassword(kdf: Kdf, password: string, salt: Bytes)
    ensures HashPassword(kdf, password, Success(salt)) ==
            Success("$argon2id$v=19$m=65536,t=1,p=4$" + Encode(salt) + "$"
                    + Encode(kdf(password, salt, 1, 65536, 4, 32)))
  {
    DefaultsPrinted();
    hide PrintParams, Encode;
    assert "$argon2id$v=19$" + "m=65536,t=1,p=4" + "$" == "$argon2id$v=19$m=65536,t=1,p=4$";
  }
}

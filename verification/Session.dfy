/** Session cookies of password-protected shares: printing, splitting, parsing and validating. The keyed hash is a
    function parameter from the payload to its raw bytes. */
module Session {
  import opened Basics
  import opened Schema

  // ---------------------------------------------------------------- dots

  predicate Dotless(s: string) {
    '.' !in s
  }

  /** strings.Split(s, "."). */
  function Split(s: string): (parts: seq<string>)
    ensures parts != []
  {
    if s == "" then [""] else Glue(s[0], Split(s[1..]))
  }

  /** A dot starts a new part, any other character belongs to the first one. */
  function Glue(c: char, parts: seq<string>): (r: seq<string>)
    requires parts != []
    ensures r != []
  {
    if c == '.' then [""] + parts else [[c] + parts[0]] + parts[1..]
  }

  lemma GlueConcat(c: char, p: seq<string>, q: seq<string>)
    requires p != []
    ensures Glue(c, p + q) == Glue(c, p) + q
  {
  }

  /** strings.Join(parts, "."). */
  function Join(parts: seq<string>): string
    requires parts != []
  {
    if |parts| == 1 then parts[0] else parts[0] + "." + Join(parts[1..])
  }

  lemma {:induction false} SplitConcat(a: string, b: string)
    ensures Split(a + "." + b) == Split(a) + Split(b)
    decreases |a|
  {
    var whole := a + "." + b;
    if a == "" {
      assert whole == "." + b && whole[1..] == b;
    } else {
      hide Glue;
      SplitConcat(a[1..], b);
      assert whole[0] == a[0] && whole[1..] == a[1..] + "." + b;
      GlueConcat(a[0], Split(a[1..]), Split(b));
    }
  }

  lemma {:induction false} SplitDotless(s: string)
    ensures |Split(s)| == 1 <==> Dotless(s)
    ensures Dotless(s) ==> Split(s) == [s]
    decreases |s|
  {
    if s != "" {
      SplitDotless(s[1..]);
      assert s == [s[0]] + s[1..];
    }
  }

  /** Joining undoes splitting, and the parts hold no dot. */
  lemma {:induction false} SplitParts(s: string)
    ensures Join(Split(s)) == s && forall p | p in Split(s) :: Dotless(p)
    decreases |s|
  {
    if s != "" {
      hide Glue, Join, Dotless;
      SplitParts(s[1..]);
      GlueJoin(s[0], Split(s[1..]));
      assert s == [s[0]] + s[1..];
    }
  }

  lemma GlueJoin(c: char, parts: seq<string>)
    requires parts != [] && forall p | p in parts :: Dotless(p)
    ensures Join(Glue(c, parts)) == [c] + Join(parts)
    ensures forall p | p in Glue(c, parts) :: Dotless(p)
  {
    GlueDotless(c, parts);
    hide Dotless;
    if c == '.' {
      assert ([""] + parts)[1..] == parts;
    } else {
      assert ([[c] + parts[0]] + parts[1..])[1..] == parts[1..];
    }
  }

  lemma GlueDotless(c: char, parts: seq<string>)
    requires parts != [] && forall p | p in parts :: Dotless(p)
    ensures forall p | p in Glue(c, parts) :: Dotless(p)
  {
    assert parts[0] in parts;
    forall p | p in Glue(c, parts) ensures Dotless(p) {
      if c == '.' { assert p == "" || p in parts; } else { assert p == [c] + parts[0] || p in parts; }
    }
  }

  // ---------------------------------------------------------------- numbers

  const HEX := "0123456789abcdef"

  function Digit(d: nat): char
    requires d < 10
  {
    ('0' as int + d) as char
  }

  function Digits(n: nat): string {
    if n < 10 then [Digit(n)] else Digits(n / 10) + [Digit(n % 10)]
  }

  /** The verb %d. */
  function Decimal(n: int): string {
    if n < 0 then "-" + Digits(-n) else Digits(n)
  }

  predicate AllDigits(s: string) {
    forall i | 0 <= i < |s| :: '0' <= s[i] <= '9'
  }

  function Value(s: string): nat
    requires AllDigits(s)
  {
    if s == "" then 0
    else 10 * Value(s[..|s| - 1]) + (s[|s| - 1] as int - '0' as int)
  }

  predicate Int64(n: int) {
    -0x8000_0000_0000_0000 <= n < 0x8000_0000_0000_0000
  }

  /** strconv.ParseInt(s, 10, 64), and Atoi on a 64-bit machine: an optional sign, then digits, in range. */
  function ParseInt(s: string): Option<int> {
    var digits := if s != "" && (s[0] == '-' || s[0] == '+') then s[1..] else s;
    if digits == "" || !AllDigits(digits) then None
    else
      var v: int := Value(digits);
      var n := if s[0] == '-' then -v else v;
      if Int64(n) then Some(n) else None
  }

  lemma {:induction false} DigitsValue(n: nat)
    ensures Digits(n) != "" && AllDigits(Digits(n)) && Value(Digits(n)) == n
    decreases n
  {
    if n >= 10 {
      DigitsValue(n / 10);
      LastDigit(Digits(n / 10), n % 10);
    } else {
      LastDigit("", n);
      assert Digits(n) == "" + [Digit(n)];
    }
  }

  lemma LastDigit(s: string, d: nat)
    requires AllDigits(s) && d < 10
    ensures AllDigits(s + [Digit(d)]) && Value(s + [Digit(d)]) == 10 * Value(s) + d
  {
    assert (s + [Digit(d)])[..|s|] == s;
  }

  /** Printing and parsing are inverse exactly on 64-bit values. */
  lemma ParseDecimal(n: int)
    ensures ParseInt(Decimal(n)) == if Int64(n) then Some(n) else None
    ensures Dotless(Decimal(n))
  {
    hide Digits, Value;
    var digits := Digits(if n < 0 then -n else n);
    DigitsValue(if n < 0 then -n else n);
    if n < 0 {
      assert Decimal(n)[0] == '-' && Decimal(n)[1..] == digits;
    } else {
      assert Decimal(n) == digits && digits[0] != '-' && digits[0] != '+';
    }
  }

  /** What is printed: a sign if negative, then the digits of the absolute value without leading zeros. */
  lemma DecimalShape(n: int)
    ensures exists d ::
      && AllDigits(d) && d != "" && Value(d) == (if n < 0 then -n else n) && (d[0] == '0' ==> d == "0")
      && Decimal(n) == (if n < 0 then "-" else "") + d
  {
    var m := if n < 0 then -n else n;
    DigitsValue(m);
    NoLeadingZero(m);
    assert Decimal(n) == (if n < 0 then "-" else "") + Digits(m);
  }

  lemma {:induction false} NoLeadingZero(n: nat)
    ensures Digits(n) != "" && (Digits(n)[0] == '0' ==> n == 0 && Digits(n) == "0")
    decreases n
  {
    if n >= 10 { NoLeadingZero(n / 10); }
  }

  /** What is parsed: one sign at most, then at least one digit and nothing else, with a value that fits 64 bits. */
  lemma ParseIntMeans(s: string, n: int)
    ensures ParseInt(s) == Some(n) <==>
      && -0x8000_0000_0000_0000 <= n < 0x8000_0000_0000_0000
      && exists d :: d != "" && AllDigits(d)
           && ((s == "-" + d && n + Value(d) == 0) || ((s == d || s == "+" + d) && n == Value(d)))
  {
    hide Value;
    if ParseInt(s) == Some(n) {
      var d := if s[0] == '-' || s[0] == '+' then s[1..] else s;
      assert s == d || s == [s[0]] + d;
      assert d != "" && AllDigits(d);
    }
    if d :|
      && d != "" && AllDigits(d)
      && ((s == "-" + d && n + Value(d) == 0) || ((s == d || s == "+" + d) && n == Value(d)))
    {
      assert d[0] != '-' && d[0] != '+';
      if s != d { assert s[1..] == d; }
    }
  }

  /** The value of a text is read off its digits from the left, to the base ten. */
  lemma ValueMeans(d: string, c: char)
    requires AllDigits(d) && '0' <= c <= '9'
    ensures AllDigits(d + [c]) && Value(d + [c]) == 10 * Value(d) + (c as int - '0' as int) && Value("") == 0
  {
    assert (d + [c])[..|d|] == d;
  }

  /** hex.EncodeToString. */
  function Hex(bytes: Bytes): string {
    if bytes == [] then ""
    else
      var b := bytes[0] as int;
      [HEX[b / 16], HEX[b % 16]] + Hex(bytes[1..])
  }

  lemma {:induction false} HexDotless(bytes: Bytes)
    ensures Dotless(Hex(bytes))
    decreases |bytes|
  {
    if bytes != [] {
      HexDotless(bytes[1..]);
      var b := bytes[0] as int;
      assert HEX[b / 16] in HEX && HEX[b % 16] in HEX && '.' !in HEX;
    }
  }

  /** Two lower-case hexadecimal digits for each byte, the high half first. */
  lemma {:induction false} HexMeans(bytes: Bytes, i: nat)
    requires i < |bytes|
    ensures |Hex(bytes)| == 2 * |bytes|
    ensures Hex(bytes)[2 * i] == "0123456789abcdef"[bytes[i] as int / 16]
    ensures Hex(bytes)[2 * i + 1] == "0123456789abcdef"[bytes[i] as int % 16]
    decreases |bytes|
  {
    HexTail(bytes);
    HexSize(bytes);
    hide Hex;
    if i > 0 {
      HexMeans(bytes[1..], i - 1);
      assert bytes[i] == bytes[1..][i - 1];
      assert Hex(bytes)[2 * i] == Hex(bytes)[2..][2 * (i - 1)];
      assert Hex(bytes)[2 * i + 1] == Hex(bytes)[2..][2 * (i - 1) + 1];
    }
  }

  lemma {:induction false} HexSize(bytes: Bytes)
    ensures |Hex(bytes)| == 2 * |bytes|
    decreases |bytes|
  {
    if bytes != [] { HexSize(bytes[1..]); }
  }

  /** Different bytes print differently. */
  lemma {:induction false} HexInjective(a: Bytes, b: Bytes)
    requires Hex(a) == Hex(b)
    ensures a == b
    decreases |a|
  {
    HexTail(a);
    HexTail(b);
    hide Hex;
    if a != [] && b != [] {
      HexInjective(a[1..], b[1..]);
      SameDigits(a[0], b[0]);
      assert a == [a[0]] + a[1..] && b == [b[0]] + b[1..];
    }
  }

  lemma HexTail(a: Bytes)
    ensures a == [] <==> Hex(a) == ""
    ensures a != [] ==>
      && |Hex(a)| >= 2 && Hex(a)[2..] == Hex(a[1..])
      && Hex(a)[0] == HEX[a[0] as int / 16] && Hex(a)[1] == HEX[a[0] as int % 16]
  {
  }

  lemma SameDigits(x: bv8, y: bv8)
    requires HEX[x as int / 16] == HEX[y as int / 16] && HEX[x as int % 16] == HEX[y as int % 16]
    ensures x == y
  {
    DigitsDiffer(x as int / 16, y as int / 16);
    DigitsDiffer(x as int % 16, y as int % 16);
  }

  lemma DigitsDiffer(i: int, j: int)
    requires 0 <= i < 16 && 0 <= j < 16 && HEX[i] == HEX[j]
    ensures i == j
  {
  }

  // ---------------------------------------------------------------- tokens

  function Payload(id: string, version: string, epoch: string, expiry: string): string {
    id + "." + version + "." + epoch + "." + expiry
  }

  function CreateSessionToken(mac: string -> Bytes, id: Id, version: int, epoch: int, expiry: int): string {
    var payload := Payload(id, Decimal(version), Decimal(epoch), Decimal(expiry));
    payload + "." + Hex(mac(payload))
  }

  predicate NeedsPassword(h: Share) {
    h.password.Some? && h.password.value != ""
  }

  /** ValidateSessionCookie for the share `h` with id `id`. */
  predicate ValidateSessionCookie(mac: string -> Bytes, id: Id, h: Share, cookie: string, now: int) {
    if !NeedsPassword(h) then true
    else if cookie == "" then false
    else
      var parts := Split(cookie);
      if |parts| != 5 then false
      else
        var version, epoch, expiry := ParseInt(parts[1]), ParseInt(parts[2]), ParseInt(parts[3]);
        && parts[0] == id
        && version == Some(h.authVersion)
        && epoch == Some(h.epoch)
        && expiry.Some? && now <= expiry.value
        && parts[4] == Hex(mac(Payload(parts[0], parts[1], parts[2], parts[3])))
  }

  lemma SplitPayload(id: string, version: string, epoch: string, expiry: string, sig: string)
    requires Dotless(version) && Dotless(epoch) && Dotless(expiry) && Dotless(sig)
    ensures Split(Payload(id, version, epoch, expiry) + "." + sig) == Split(id) + [version, epoch, expiry, sig]
  {
    SplitConcat(Payload(id, version, epoch, expiry), sig);
    SplitConcat(id + "." + version + "." + epoch, expiry);
    SplitConcat(id + "." + version, epoch);
    SplitConcat(id, version);
    SplitDotless(version);
    SplitDotless(epoch);
    SplitDotless(expiry);
    SplitDotless(sig);
  }

  /** The printed token splits into exactly five parts if and only if the share id holds no dot, and then the parts
      parse back to what was printed. */
  lemma TokenRoundTrip(mac: string -> Bytes, id: Id, version: int, epoch: int, expiry: int)
    requires Int64(version) && Int64(epoch) && Int64(expiry)
    ensures var parts := Split(CreateSessionToken(mac, id, version, epoch, expiry));
      && (|parts| == 5 <==> Dotless(id))
      && (|parts| == 5 ==>
            && parts[0] == id && ParseInt(parts[1]) == Some(version) && ParseInt(parts[2]) == Some(epoch)
            && ParseInt(parts[3]) == Some(expiry))
  {
    var payload := Payload(id, Decimal(version), Decimal(epoch), Decimal(expiry));
    ParseDecimal(version);
    ParseDecimal(epoch);
    ParseDecimal(expiry);
    HexDotless(mac(payload));
    SplitPayload(id, Decimal(version), Decimal(epoch), Decimal(expiry), Hex(mac(payload)));
    SplitDotless(id);
  }

  /** When the token printed for one share and version is accepted for the row `h` of a share, own or other. */
  lemma PrintedTokenAccepted(mac: string -> Bytes, printed: Id, version: int, epoch: int, expiry: int, id: Id, h: Share,
      now: int)
    requires Int64(version) && Int64(epoch) && Int64(expiry) && Dotless(printed)
    ensures ValidateSessionCookie(mac, id, h, CreateSessionToken(mac, printed, version, epoch, expiry), now) <==>
            !NeedsPassword(h) || (printed == id && version == h.authVersion && epoch == h.epoch && now <= expiry)
  {
    var payload := Payload(printed, Decimal(version), Decimal(epoch), Decimal(expiry));
    TokenRoundTrip(mac, printed, version, epoch, expiry);
    ParseDecimal(version);
    ParseDecimal(epoch);
    ParseDecimal(expiry);
    HexDotless(mac(payload));
    SplitPayload(printed, Decimal(version), Decimal(epoch), Decimal(expiry), Hex(mac(payload)));
    SplitDotless(printed);
  }

  /** `cookie` is the share's own id and three numeric texts, signed as a whole. */
  predicate Signed(mac: string -> Bytes, id: Id, h: Share, cookie: string, now: int,
                   version: string, epoch: string, expiry: string) {
    && ParseInt(version) == Some(h.authVersion) && ParseInt(epoch) == Some(h.epoch)
    && ParseInt(expiry).Some? && now <= ParseInt(expiry).value
    && var text := id + "." + version + "." + epoch + "." + expiry; cookie == text + "." + Hex(mac(text))
  }

  lemma NumbersHaveNoDot(s: string)
    requires ParseInt(s).Some?
    ensures Dotless(s)
  {
    var digits := if s != "" && (s[0] == '-' || s[0] == '+') then s[1..] else s;
    assert AllDigits(digits);
    assert s == digits || s == [s[0]] + digits;
  }

  /** A share without password accepts anything. Any other accepts exactly the cookies that carry its own dot-free id,
      its current version and epoch, an expiry not yet passed, and the signature of exactly these four parts as they
      stand in the cookie. */
  lemma AcceptedIff(mac: string -> Bytes, id: Id, h: Share, cookie: string, now: int)
    ensures ValidateSessionCookie(mac, id, h, cookie, now) <==>
      || h.password == None || h.password == Some("")
      || ('.' !in id && exists version, epoch, expiry :: Signed(mac, id, h, cookie, now, version, epoch, expiry))
  {
    hide Split, ParseInt, Hex;
    if NeedsPassword(h) && ValidateSessionCookie(mac, id, h, cookie, now) {
      var parts := Split(cookie);
      SplitParts(cookie);
      assert parts[0] in parts;
      JoinFive(parts);
      assert Signed(mac, id, h, cookie, now, parts[1], parts[2], parts[3]);
    }
    if version, epoch, expiry :| Dotless(id) && Signed(mac, id, h, cookie, now, version, epoch, expiry) {
      NumbersHaveNoDot(version);
      NumbersHaveNoDot(epoch);
      NumbersHaveNoDot(expiry);
      HexDotless(mac(Payload(id, version, epoch, expiry)));
      SplitPayload(id, version, epoch, expiry, Hex(mac(Payload(id, version, epoch, expiry))));
      SplitDotless(id);
    }
  }

  lemma JoinFive(p: seq<string>)
    requires |p| == 5
    ensures Join(p) == Payload(p[0], p[1], p[2], p[3]) + "." + p[4]
  {
    assert Join(p[4..]) == p[4];
    assert p[3..][1..] == p[4..] && Join(p[3..]) == p[3] + "." + p[4];
    assert p[2..][1..] == p[3..] && Join(p[2..]) == p[2] + "." + (p[3] + "." + p[4]);
    assert p[1..][1..] == p[2..] && Join(p[1..]) == p[1] + "." + (p[2] + "." + (p[3] + "." + p[4]));
    assert Join(p) == p[0] + "." + (p[1] + "." + (p[2] + "." + (p[3] + "." + p[4])));
  }
}

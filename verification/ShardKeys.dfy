/** The text of shard keys, object/version/index, and of shard locations, node/key. */
module ShardKeys {
  import opened Wrappers

  const UINT32_MAX: nat := 0xffff_ffff
  const UINT64_LIMIT: nat := 0x1_0000_0000_0000_0000

  datatype ShardKey = ShardKey(objectId: string, version: string, index: nat)

  datatype KeyError = EmptyPart | SlashInPart | BadFormat | BadIndex

  /* ---------- Decimal text ---------- */

  predicate IsDigit(c: char) {
    '0' <= c <= '9'
  }

  predicate IsSpace(c: char) {
    c == ' ' || 9 as char <= c <= 13 as char
  }

  /** std::to_string of an unsigned number. */
  function Decimal(n: nat): string {
    if n < 10 then [(48 + n) as char] else Decimal(n / 10) + [(48 + n % 10) as char]
  }

  function DigitsValue(s: string): nat
    requires forall c :: c in s ==> IsDigit(c)
  {
    if s == "" then 0
    else
      assert IsDigit(s[|s| - 1]);
      10 * DigitsValue(s[..|s| - 1]) + (s[|s| - 1] as nat - 48)
  }

  function LeadingDigits(s: string): (d: string)
    ensures forall c :: c in d ==> IsDigit(c)
  {
    if s == "" || !IsDigit(s[0]) then "" else [s[0]] + LeadingDigits(s[1..])
  }

  function SkipSpaces(s: string): string {
    if s != "" && IsSpace(s[0]) then SkipSpaces(s[1..]) else s
  }

  /** std::stoul: white space, an optional sign, and at least one digit; the rest is ignored. */
  function Stoul(s: string): Option<nat> {
    var t := SkipSpaces(s);
    var negative := t != "" && t[0] == '-';
    var digits := LeadingDigits(if negative || (t != "" && t[0] == '+') then t[1..] else t);
    if digits == "" || DigitsValue(digits) >= UINT64_LIMIT then None
    else if negative then Some((UINT64_LIMIT - DigitsValue(digits)) % UINT64_LIMIT)
    else Some(DigitsValue(digits))
  }

  lemma {:induction false} DecimalValue(n: nat)
    ensures Decimal(n) != "" && (forall c :: c in Decimal(n) ==> IsDigit(c))
    ensures DigitsValue(Decimal(n)) == n
  {
    if n >= 10 {
      DecimalValue(n / 10);
      assert Decimal(n)[..|Decimal(n)| - 1] == Decimal(n / 10);
    }
  }

  lemma {:induction false} AllDigits(s: string)
    requires forall c :: c in s ==> IsDigit(c)
    ensures LeadingDigits(s) == s
  {
    if s != "" {
      AllDigits(s[1..]);
      assert s == [s[0]] + s[1..];
    }
  }

  lemma {:induction false} StoulDecimal(n: nat)
    requires n < UINT64_LIMIT
    ensures Stoul(Decimal(n)) == Some(n)
  {
    var s := Decimal(n);
    DecimalValue(n);
    assert IsDigit(s[0]) by { assert s[0] in s; }
    AllDigits(s);
  }

  lemma {:induction false} LeadingSpaces(spaces: string, t: string)
    requires forall c :: c in spaces ==> IsSpace(c)
    requires t == "" || !IsSpace(t[0])
    ensures SkipSpaces(spaces + t) == t
  {
    var s := spaces + t;
    if spaces == "" {
      assert s == t;
    } else {
      LeadingSpaces(spaces[1..], t);
      assert spaces[0] in spaces;
      assert s[0] == spaces[0] && s[1..] == spaces[1..] + t;
    }
  }

  lemma {:induction false} DigitsThenRest(digits: string, rest: string)
    requires forall c :: c in digits ==> IsDigit(c)
    requires rest == "" || !IsDigit(rest[0])
    ensures LeadingDigits(digits + rest) == digits
  {
    var s := digits + rest;
    if digits == "" {
      assert s == rest;
    } else {
      DigitsThenRest(digits[1..], rest);
      assert digits[0] in digits;
      assert s[0] == digits[0] && s[1..] == digits[1..] + rest;
      assert digits == [digits[0]] + digits[1..];
    }
  }

  /**
   Which texts are read as numbers: white space, then at most one sign, then the digits, then
   anything that does not go on with a digit. There must be a digit, the value must fit into 64
   bits, and a minus sign negates modulo 2^64.
   */
  lemma {:induction false} StoulOfParts(spaces: string, sign: string, digits: string, rest: string)
    requires forall c :: c in spaces ==> c == ' ' || 9 as char <= c <= 13 as char
    requires forall c :: c in digits ==> '0' <= c <= '9'
    requires sign in {"", "+", "-"} && (rest == "" || !('0' <= rest[0] <= '9'))
    requires digits == "" && sign == "" && rest != "" ==> !IsSpace(rest[0]) && rest[0] !in {'+', '-'}
    ensures Stoul(spaces + (sign + (digits + rest))) ==
      if digits == "" || DigitsValue(digits) >= UINT64_LIMIT then None
      else if sign == "-" && DigitsValue(digits) > 0 then Some(UINT64_LIMIT - DigitsValue(digits))
      else Some(DigitsValue(digits))
  {
    var number := digits + rest;
    var t := sign + number;
    assert digits != "" ==> digits[0] in digits && number[0] == digits[0];
    assert digits == "" ==> number == rest;
    LeadingSpaces(spaces, t);
    DigitsThenRest(digits, rest);
    if sign == "" {
      assert t == number;
    } else {
      assert t[0] == sign[0] && t[1..] == number;
    }
  }

  lemma DecimalNumerals()
    ensures Decimal(0) == "0" && Decimal(7) == "7" && Decimal(10) == "10" && Decimal(254) == "254"
    ensures Decimal(UINT32_MAX) == "4294967295"
  {
    assert Decimal(42949) == "42949";
    assert Decimal(429496729) == "429496729";
  }

  /* ---------- Slashes ---------- */

  predicate NoSlash(s: string) {
    '/' !in s
  }

  /** The text before and after the first slash. */
  function SplitSlash(s: string): (r: Option<(string, string)>)
    ensures r == None <==> NoSlash(s)
    ensures r.Some? ==> NoSlash(r.value.0) && s == r.value.0 + "/" + r.value.1
  {
    if s == "" then None
    else if s[0] == '/' then
      assert s == "" + "/" + s[1..];
      Some(("", s[1..]))
    else
      assert s == [s[0]] + s[1..];
      match SplitSlash(s[1..])
      case None => None
      case Some((a, b)) => Some(([s[0]] + a, b))
  }

  lemma {:induction false} SplitJoined(a: string, b: string)
    requires NoSlash(a)
    ensures SplitSlash(a + "/" + b) == Some((a, b))
  {
    var s := a + "/" + b;
    if a == "" {
      assert s[1..] == b;
    } else {
      assert s[0] == a[0] && s[1..] == a[1..] + "/" + b;
      SplitJoined(a[1..], b);
      assert a == [a[0]] + a[1..];
    }
  }

  /* ---------- Keys ---------- */

  predicate ValidKey(key: ShardKey) {
    && key.objectId != "" && key.version != ""
    && NoSlash(key.objectId) && NoSlash(key.version)
    && key.index <= UINT32_MAX
  }

  function KeyText(key: ShardKey): string {
    key.objectId + "/" + key.version + "/" + Decimal(key.index)
  }

  function MakeShardKey(objectId: string, version: string, index: nat): Result<string, KeyError> {
    if objectId == "" || version == "" then Err(EmptyPart)
    else if !NoSlash(objectId) || !NoSlash(version) then Err(SlashInPart)
    else Ok(KeyText(ShardKey(objectId, version, index)))
  }

  function ParseShardKey(location: string): (r: Result<ShardKey, KeyError>)
    ensures r.Ok? ==> ValidKey(r.value)
  {
    match SplitSlash(location)
    case None => Err(BadFormat)
    case Some((objectId, rest)) =>
      match SplitSlash(rest)
      case None => Err(BadFormat)
      case Some((version, tail)) =>
        if !NoSlash(tail) || objectId == "" || version == "" || tail == "" then Err(BadFormat)
        else
          match Stoul(tail)
          case None => Err(BadIndex)
          case Some(i) => if i > UINT32_MAX then Err(BadIndex) else Ok(ShardKey(objectId, version, i))
  }

  /** Making a key fails exactly for an empty part or a slash in one, in this order. */
  lemma {:induction false} MadeExactly(objectId: string, version: string, index: nat)
    ensures var r := MakeShardKey(objectId, version, index);
      && (r == Err(EmptyPart) <==> objectId == "" || version == "")
      && (r == Err(SlashInPart) <==> objectId != "" && version != "" && ('/' in objectId || '/' in version))
      && (r.Ok? <==> objectId != "" && version != "" && '/' !in objectId && '/' !in version)
      && (r.Ok? ==> r.value == objectId + "/" + version + "/" + Decimal(index))
  {
  }

  /**
   Which texts are keys: those with exactly two slashes, no empty part, and a last part that
   reads as a number of 32 bits; every text has one of the three forms.
   */
  lemma ParsedExactly(a: string, b: string, c: string)
    requires '/' !in a && '/' !in b
    ensures ParseShardKey(a) == Err(BadFormat)
    ensures ParseShardKey(a + "/" + b) == Err(BadFormat)
    ensures var r := ParseShardKey(a + "/" + (b + "/" + c));
      var number := Stoul(c);
      var proper := a != "" && b != "" && c != "" && '/' !in c;
      && (r == Err(BadFormat) <==> !proper)
      && (r == Err(BadIndex) <==> proper && (number == None || number.value > 0xffff_ffff))
      && (r.Ok? <==> proper && number.Some? && number.value <= 0xffff_ffff)
      && (r.Ok? ==> r.value == ShardKey(a, b, number.value))
  {
    hide Stoul, SplitSlash;
    SplitJoined(a, b);
    SplitJoined(a, b + "/" + c);
    SplitJoined(b, c);
  }

  /** Parsing inverts making, for every key that can be made with a 32-bit index. */
  lemma KeyRoundTrip(key: ShardKey)
    requires ValidKey(key)
    ensures MakeShardKey(key.objectId, key.version, key.index) == Ok(KeyText(key))
    ensures ParseShardKey(KeyText(key)) == Ok(key)
  {
    var tail := Decimal(key.index);
    DecimalValue(key.index);
    StoulDecimal(key.index);
    assert KeyText(key) == key.objectId + "/" + (key.version + "/" + tail);
    SplitJoined(key.objectId, key.version + "/" + tail);
    SplitJoined(key.version, tail);
  }

  /** Different keys have different text. */
  lemma KeyTextInjective(a: ShardKey, b: ShardKey)
    requires ValidKey(a) && ValidKey(b) && KeyText(a) == KeyText(b)
    ensures a == b
  {
    KeyRoundTrip(a);
    KeyRoundTrip(b);
  }

  /* ---------- Locations ---------- */

  function LocationText(node: string, key: string): string {
    node + "/" + key
  }

  /** A location read back gives the node and the key, whatever slashes the key has. */
  lemma LocationRoundTrip(node: string, key: ShardKey)
    requires NoSlash(node) && ValidKey(key)
    ensures SplitSlash(LocationText(node, KeyText(key))) == Some((node, KeyText(key)))
    ensures ParseShardKey(KeyText(key)) == Ok(key)
  {
    SplitJoined(node, KeyText(key));
    KeyRoundTrip(key);
  }
}

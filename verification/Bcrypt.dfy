/** The text form of a password hash: its printer and parser, and the base64 used inside. */
module Bcrypt {
  type byte = x: int | 0 <= x < 256

  const DOLLAR: byte := '$' as int
  const MAJOR_VERSION: byte := '2' as int
  const ZERO: byte := '0' as int
  const MIN_COST := 1
  const MAX_COST := 31
  const ENCODED_SALT_SIZE := 22
  const ENCODED_HASH_SIZE := 31
  const MIN_HASH_SIZE := 59

  datatype Hashed = Hashed(hash: seq<byte>, salt: seq<byte>, cost: int, major: byte, minor: byte)

  datatype Error =
    | HashTooShort
    | InvalidHashPrefix(first: byte)
    | HashVersionTooNew(version: byte)
    | NotANumber
    | InvalidCost(cost: int)

  datatype Result<T> = Ok(value: T) | Err(error: Error)

  // --- the printer ---------------------------------------------------------

  /** The buffer with as much of `src` laid over it from `at` on as fits. */
  function Overlay(buffer: seq<byte>, at: nat, src: seq<byte>): (r: seq<byte>)
    ensures |r| == |buffer|
  {
    seq(|buffer|, i requires 0 <= i < |buffer| => if at <= i < at + |src| then src[i - at] else buffer[i])
  }

  /** Copy as much of `src` into the buffer as fits from `at` on. */
  method CopyInto(buffer: array<byte>, at: nat, src: seq<byte>)
    requires at <= buffer.Length
    modifies buffer
    ensures buffer[..] == Overlay(old(buffer[..]), at, src)
  {
    var n := 0;
    while n < |src| && at + n < buffer.Length
      invariant 0 <= n <= |src| && at + n <= buffer.Length
      invariant forall i | 0 <= i < buffer.Length ::
                  buffer[i] == if at <= i < at + n then src[i - at] else old(buffer[i])
    {
      buffer[at + n] := src[n];
      n := n + 1;
    }
  }

  function VersionText(major: byte, minor: byte): seq<byte> {
    [DOLLAR, major] + (if minor != 0 then [minor] else []) + [DOLLAR]
  }

  function Decimal(n: nat): seq<byte> {
    (if n < 10 then [] else Decimal(n / 10)) + [ZERO + n % 10]
  }

  /** The cost in decimal, with zeros up to two characters. */
  function CostText(cost: int): seq<byte> {
    if cost < 0 then ['-' as int] + Decimal(-cost)
    else if cost < 10 then [ZERO, ZERO + cost]
    else Decimal(cost)
  }

  /** The fields laid one after the other over 60 zero bytes, each where the one before
    ought to end. What is too long is overwritten by the next field, or shows behind it. */
  function Printed(p: Hashed): seq<byte> {
    var version := VersionText(p.major, p.minor);
    var n := |version|;
    var b0 := Overlay(seq(60, _ => 0), 0, version);
    var b1 := Overlay(b0, n, CostText(p.cost));
    var b2 := Overlay(b1, n + 2, [DOLLAR]);
    var b3 := Overlay(b2, n + 3, p.salt);
    Overlay(b3, n + 25, p.hash)[..n + 56]
  }

  method Hash(p: Hashed) returns (text: seq<byte>)
    ensures text == Printed(p)
  {
    var arr := new byte[60](_ => 0);
    arr[0] := DOLLAR;
    arr[1] := p.major;
    var n := 2;
    if p.minor != 0 {
      arr[2] := p.minor;
      n := 3;
    }
    arr[n] := DOLLAR;
    n := n + 1;
    assert arr[..] == Overlay(seq(60, _ => 0), 0, VersionText(p.major, p.minor));
    CopyInto(arr, n, CostText(p.cost));
    n := n + 2;
    ghost var before := arr[..];
    arr[n] := DOLLAR;
    assert arr[..] == Overlay(before, n, [DOLLAR]);
    n := n + 1;
    CopyInto(arr, n, p.salt);
    n := n + ENCODED_SALT_SIZE;
    CopyInto(arr, n, p.hash);
    n := n + ENCODED_HASH_SIZE;
    text := arr[..n];
  }

  // --- the parser ----------------------------------------------------------

  predicate IsDigit(c: byte) {
    ZERO <= c <= ZERO + 9
  }

  /** The decimal reader on two characters: digits, or a sign and a digit. */
  function Atoi2(a: byte, b: byte): Result<int> {
    if !IsDigit(b) then Err(NotANumber)
    else if IsDigit(a) then Ok(10 * (a - ZERO) + (b - ZERO))
    else if a == '+' as int then Ok(b - ZERO)
    else if a == '-' as int then Ok(ZERO - b)
    else Err(NotANumber)
  }

  function CheckCost(cost: int): Result<int> {
    if cost < MIN_COST || cost > MAX_COST then Err(InvalidCost(cost)) else Ok(cost)
  }

  function DecodeCost(s: seq<byte>): Result<int>
    requires |s| >= 2
  {
    match Atoi2(s[0], s[1])
    case Err(e) => Err(e)
    case Ok(cost) => CheckCost(cost)
  }

  /** Parse a hash text; what follows the two cost characters is skipped unread. */
  function NewFromHash(s: seq<byte>): (r: Result<Hashed>)
    ensures r.Ok? ==> MIN_COST <= r.value.cost <= MAX_COST && r.value.major <= MAJOR_VERSION
    ensures r.Ok? ==> |r.value.salt| == ENCODED_SALT_SIZE && r.value.minor != DOLLAR
  {
    if |s| < MIN_HASH_SIZE then Err(HashTooShort)
    else if s[0] != DOLLAR then Err(InvalidHashPrefix(s[0]))
    else if s[1] > MAJOR_VERSION then Err(HashVersionTooNew(s[1]))
    else
      var minor := if s[2] != DOLLAR then s[2] else 0;
      var n := if s[2] != DOLLAR then 4 else 3;
      match DecodeCost(s[n..])
      case Err(e) => Err(e)
      case Ok(cost) =>
        var salt := s[n + 3..n + 3 + ENCODED_SALT_SIZE];
        Ok(Hashed(s[n + 3 + ENCODED_SALT_SIZE..], salt, cost, s[1], minor))
  }

  // --- round trips ---------------------------------------------------------

  lemma CostRoundTrip(cost: int)
    requires MIN_COST <= cost <= MAX_COST
    ensures |CostText(cost)| == 2 && DecodeCost(CostText(cost)) == Ok(cost)
  {
    if cost >= 10 {
      assert Decimal(cost / 10) == [ZERO + cost / 10];
    }
  }

  /** The two characters spell a cost: two digits, or a plus sign and a digit. */
  predicate SpellsCost(a: byte, b: byte, cost: int) {
    && ZERO <= b <= ZERO + 9 && MIN_COST <= cost <= MAX_COST
    && (if a == '+' as int then cost == b - ZERO
        else ZERO <= a <= ZERO + 9 && cost == 10 * (a - ZERO) + b - ZERO)
  }

  predicate Costs(s: seq<byte>, n: nat, cost: int) {
    n + 1 < |s| && SpellsCost(s[n], s[n + 1], cost)
  }

  /** Exactly which texts are parsed, to what, and which error any other text meets first. */
  lemma ParseExact(s: seq<byte>)
    ensures NewFromHash(s) == Err(HashTooShort) <==> |s| < 59
    ensures |s| >= 59 && s[0] != '$' as int ==> NewFromHash(s) == Err(InvalidHashPrefix(s[0]))
    ensures |s| >= 59 && s[0] == '$' as int && s[1] > '2' as int ==> NewFromHash(s) == Err(HashVersionTooNew(s[1]))
    ensures |s| >= 59 && s[0] == '$' as int && s[1] <= '2' as int ==>
              var plain := s[2] == '$' as int;
              var n := if plain then 3 else 4;
              match NewFromHash(s)
              case Ok(p) =>
                && Costs(s, n, p.cost) && p.major == s[1] && p.minor == (if plain then 0 else s[2])
                && p.salt == s[n + 3..n + 25] && p.hash == s[n + 25..]
              case Err(e) =>
                && (forall cost {:trigger Costs(s, n, cost)} :: !Costs(s, n, cost))
                && (e.InvalidCost? || e == NotANumber) && (e.InvalidCost? ==> !(1 <= e.cost <= 31))
  {
  }

  /** What stands at each place of a printed hash, if the cost takes two characters. */
  lemma PrintedAt(p: Hashed, i: nat)
    requires |CostText(p.cost)| == 2
    ensures var t, version := Printed(p), VersionText(p.major, p.minor);
            var n := |version|;
            && |t| == n + 56
            && (i < n ==> t[i] == version[i])
            && (n <= i < n + 2 ==> t[i] == CostText(p.cost)[i - n])
            && (i == n + 2 ==> t[i] == DOLLAR)
            && (n + 3 <= i < n + 25 && i - n - 3 < |p.salt| ==> t[i] == p.salt[i - n - 3])
            && (n + 25 <= i < n + 56 && i - n - 25 < |p.hash| ==> t[i] == p.hash[i - n - 25])
  {
  }

  /** Where the fields of a printed hash are found. */
  lemma PrintedFields(p: Hashed)
    requires |CostText(p.cost)| == 2
    ensures var t, n := Printed(p), |VersionText(p.major, p.minor)|;
            && |t| == n + 56 && t[..n] == VersionText(p.major, p.minor) && t[n..n + 2] == CostText(p.cost)
               && t[n + 2] == DOLLAR
            && (|p.salt| == ENCODED_SALT_SIZE ==> t[n + 3..n + 25] == p.salt)
            && (|p.hash| == ENCODED_HASH_SIZE ==> t[n + 25..] == p.hash)
  {
    var t, version, cost := Printed(p), VersionText(p.major, p.minor), CostText(p.cost);
    var n := |version|;
    assert |t| == n + 56;
    forall i | 0 <= i < n ensures t[..n][i] == version[i] {
      PrintedAt(p, i);
    }
    forall i | 0 <= i < 2 ensures t[n..n + 2][i] == cost[i] {
      PrintedAt(p, n + i);
    }
    PrintedAt(p, n + 2);
    if |p.salt| == ENCODED_SALT_SIZE {
      forall i | 0 <= i < ENCODED_SALT_SIZE ensures t[n + 3..n + 25][i] == p.salt[i] {
        PrintedAt(p, n + 3 + i);
      }
    }
    if |p.hash| == ENCODED_HASH_SIZE {
      forall i | 0 <= i < ENCODED_HASH_SIZE ensures t[n + 25..][i] == p.hash[i] {
        PrintedAt(p, n + 25 + i);
      }
    }
  }

  /** Printing and parsing gives the hash back exactly for the version, cost, salt and hash
    lengths that the format has room for. */
  lemma HashRoundTrip(p: Hashed)
    ensures NewFromHash(Printed(p)) == Ok(p) <==>
            && p.major <= MAJOR_VERSION && p.minor != DOLLAR && MIN_COST <= p.cost <= MAX_COST
            && |p.salt| == ENCODED_SALT_SIZE && |p.hash| == ENCODED_HASH_SIZE
  {
    var t, n := Printed(p), |VersionText(p.major, p.minor)|;
    assert |t| == n + 56;
    if MIN_COST <= p.cost <= MAX_COST {
      CostRoundTrip(p.cost);
      PrintedFields(p);
      assert t[0] == t[..n][0] && t[1] == t[..n][1] && t[2] == t[..n][2];
      assert t[n..][..2] == t[n..n + 2] && t[n..][0] == CostText(p.cost)[0] && t[n..][1] == CostText(p.cost)[1];
    }
  }

  /** The other way round: a text that parses is printed back exactly when it has no
    excess bytes, spells the cost with two digits, and has dollar signs at the two places
    the parser skips unread. */
  lemma TextRoundTrip(s: seq<byte>)
    requires NewFromHash(s).Ok?
    ensures var n := if s[2] != DOLLAR then 4 else 3;
      Printed(NewFromHash(s).value) == s <==>
      && |s| == n + 56 && s[2] != 0
      && s[n - 1] == DOLLAR && IsDigit(s[n]) && s[n + 2] == DOLLAR
  {
    var n := if s[2] != DOLLAR then 4 else 3;
    var p := NewFromHash(s).value;
    CostRoundTrip(p.cost);
    CostDigits(s[n], s[n + 1], p.cost);
    PrintedFields(p);
    if s[2] == 0 {
      PrintedAt(p, 2);
    } else {
      assert |VersionText(p.major, p.minor)| == n;
      assert s[..n] == VersionText(p.major, p.minor) <==> s[n - 1] == DOLLAR;
      assert s[n - 1] == s[..n][n - 1] && [s[n], s[n + 1]] == s[n..n + 2];
      if |s| == n + 56 && s[n - 1] == DOLLAR && IsDigit(s[n]) && s[n + 2] == DOLLAR {
        SameParts(s, Printed(p), n);
      }
    }
  }

  /** A two-character number that is read as a cost in range is printed as it was, just when
    it has no sign. */
  lemma CostDigits(a: byte, b: byte, cost: int)
    requires Atoi2(a, b) == Ok(cost) && MIN_COST <= cost <= MAX_COST
    ensures CostText(cost) == [a, b] <==> IsDigit(a)
  {
    if cost >= 10 {
      assert Decimal(cost / 10) == [ZERO + cost / 10];
    }
  }

  /** Texts that agree on every field are the same. */
  lemma SameParts(s: seq<byte>, t: seq<byte>, n: nat)
    requires |s| == |t| == n + 56 && s[..n] == t[..n] && s[n..n + 2] == t[n..n + 2] && s[n + 2] == t[n + 2]
    requires s[n + 3..n + 25] == t[n + 3..n + 25] && s[n + 25..] == t[n + 25..]
    ensures s == t
  {
    assert s == s[..n] + s[n..n + 2] + [s[n + 2]] + s[n + 3..n + 25] + s[n + 25..];
    assert t == t[..n] + t[n..n + 2] + [t[n + 2]] + t[n + 3..n + 25] + t[n + 25..];
  }
}

/** Base64 over the hash alphabet, without padding. The codec underneath is the standard one
  of RFC 4648 section 4. */
module Base64 {
  import opened Common
  import opened Bcrypt

  type sextet = x: int | 0 <= x < 64

  const PAD: byte := '=' as int

  /** The alphabet: dot, slash, upper-case letters, lower-case letters, digits. */
  function Symbol(v: sextet): byte {
    if v < 2 then '.' as int + v
    else if v < 28 then 'A' as int + (v - 2)
    else if v < 54 then 'a' as int + (v - 28)
    else '0' as int + (v - 54)
  }

  /** The value of a character, if it is in the alphabet. */
  function ValueOf(c: byte): Option<sextet> {
    if '.' as int <= c <= '/' as int then Some(c - '.' as int)
    else if 'A' as int <= c <= 'Z' as int then Some(c - 'A' as int + 2)
    else if 'a' as int <= c <= 'z' as int then Some(c - 'a' as int + 28)
    else if '0' as int <= c <= '9' as int then Some(c - '0' as int + 54)
    else None
  }

  /** The alphabet in order: dot and slash, then A to Z, a to z and 0 to 9, each in a row; and
    a character stands for a value exactly if it is the value's symbol. */
  lemma AlphabetExact(v: sextet, c: byte)
    ensures Symbol(0) == '.' as int && Symbol(1) == '/' as int && Symbol(2) == 'A' as int && Symbol(27) == 'Z' as int
    ensures Symbol(28) == 'a' as int && Symbol(53) == 'z' as int && Symbol(54) == '0' as int && Symbol(63) == '9' as int
    ensures v !in {1, 27, 53, 63} ==> Symbol(v + 1) == Symbol(v) + 1
    ensures ValueOf(c) == Some(v) <==> c == Symbol(v)
  {
  }

  lemma ValueOfSymbol(v: sextet)
    ensures ValueOf(Symbol(v)) == Some(v) && Symbol(v) != PAD
  {
  }

  // --- one group of four characters ----------------------------------------

  /** What a group decodes to; the bits that a padded group does not use are not looked at. */
  datatype Group = Bad | One(a: byte) | Two(a: byte, b: byte) | Three(a: byte, b: byte, c: byte)

  function Second(a: byte, b: byte): sextet {
    a % 4 * 16 + b / 16
  }

  function Third(b: byte, c: byte): sextet {
    b % 16 * 4 + c / 64
  }

  function EncodeGroup(g: Group): (r: seq<byte>)
    ensures |r| == 4
  {
    match g
    case Bad => [PAD, PAD, PAD, PAD]
    case One(a) => [Symbol(a / 4), Symbol(Second(a, 0)), PAD, PAD]
    case Two(a, b) => [Symbol(a / 4), Symbol(Second(a, b)), Symbol(Third(b, 0)), PAD]
    case Three(a, b, c) => [Symbol(a / 4), Symbol(Second(a, b)), Symbol(Third(b, c)), Symbol(c % 64)]
  }

  function Join(p: sextet, q: sextet, r: sextet, s: sextet): Group {
    Three(p * 4 + q / 16, q % 16 * 16 + r / 4, r % 4 * 64 + s)
  }

  function DecodeGroup(t: seq<byte>): Group
    requires |t| == 4
  {
    var p, q, r, s := ValueOf(t[0]), ValueOf(t[1]), ValueOf(t[2]), ValueOf(t[3]);
    if p.None? || q.None? then Bad
    else if t[2] == PAD then
      if t[3] == PAD then One(Join(p.value, q.value, 0, 0).a) else Bad
    else if r.None? then Bad
    else if t[3] == PAD then
      var j := Join(p.value, q.value, r.value, 0);
      Two(j.a, j.b)
    else if s.None? then Bad
    else Join(p.value, q.value, r.value, s.value)
  }

  /** Cutting three bytes into sextets and joining those again gives the bytes back. */
  lemma JoinSextets(a: byte, b: byte, c: byte)
    ensures Join(a / 4, Second(a, b), Third(b, c), c % 64) == Three(a, b, c)
  {
    assert Second(a, b) / 16 == a % 4 && Second(a, b) % 16 == b / 16;
    assert Third(b, c) / 4 == b % 16 && Third(b, c) % 4 == c / 64;
  }

  /** The four characters of three bytes are the digits to base 64 of the number whose digits
    to base 256 are the bytes. */
  lemma GroupSpells(a: byte, b: byte, c: byte)
    ensures var t := EncodeGroup(Three(a, b, c));
            var p, q, r, s := ValueOf(t[0]), ValueOf(t[1]), ValueOf(t[2]), ValueOf(t[3]);
            && p.Some? && q.Some? && r.Some? && s.Some?
            && ((p.value * 64 + q.value) * 64 + r.value) * 64 + s.value == (a * 256 + b) * 256 + c
  {
    ValueOfSymbol(a / 4);
    ValueOfSymbol(Second(a, b));
    ValueOfSymbol(Third(b, c));
    ValueOfSymbol(c % 64);
  }

  lemma GroupRoundTrip(g: Group)
    ensures DecodeGroup(EncodeGroup(g)) == g
  {
    match g
    case Bad =>
    case One(a) =>
      JoinSextets(a, 0, 0);
      ValueOfSymbol(a / 4);
      ValueOfSymbol(Second(a, 0));
    case Two(a, b) =>
      JoinSextets(a, b, 0);
      ValueOfSymbol(a / 4);
      ValueOfSymbol(Second(a, b));
      ValueOfSymbol(Third(b, 0));
    case Three(a, b, c) =>
      JoinSextets(a, b, c);
      ValueOfSymbol(a / 4);
      ValueOfSymbol(Second(a, b));
      ValueOfSymbol(Third(b, c));
      ValueOfSymbol(c % 64);
  }

  // --- the padded codec ----------------------------------------------------

  function FirstGroup(src: seq<byte>): (g: Group)
    requires |src| > 0
    ensures !g.Bad?
  {
    if |src| == 1 then One(src[0]) else if |src| == 2 then Two(src[0], src[1]) else Three(src[0], src[1], src[2])
  }

  function Encode(src: seq<byte>): seq<byte> {
    if |src| == 0 then []
    else EncodeGroup(FirstGroup(src)) + if |src| <= 3 then [] else Encode(src[3..])
  }

  /** The decoder passes over carriage returns and line feeds wherever they stand. */
  function Clean(src: seq<byte>): seq<byte> {
    if src == [] then []
    else (if src[0] == '\n' as int || src[0] == '\r' as int then [] else [src[0]]) + Clean(src[1..])
  }

  function Decode(src: seq<byte>): Option<seq<byte>> {
    DecodeClean(Clean(src))
  }

  function DecodeClean(src: seq<byte>): Option<seq<byte>> {
    if |src| == 0 then Some([])
    else if |src| < 4 then None
    else
      match DecodeGroup(src[..4])
      case Bad => None
      case One(a) => if |src| == 4 then Some([a]) else None
      case Two(a, b) => if |src| == 4 then Some([a, b]) else None
      case Three(a, b, c) =>
        match DecodeClean(src[4..])
        case None => None
        case Some(rest) => Some([a, b, c] + rest)
  }

  predicate NoBreaks(s: seq<byte>) {
    forall i | 0 <= i < |s| :: s[i] != '\n' as int && s[i] != '\r' as int
  }

  lemma {:induction false} CleanSame(s: seq<byte>)
    requires NoBreaks(s)
    ensures Clean(s) == s
  {
    if s != [] {
      CleanSame(s[1..]);
    }
  }

  lemma {:induction false} CleanConcat(a: seq<byte>, b: seq<byte>)
    ensures Clean(a + b) == Clean(a) + Clean(b)
  {
    if a == [] {
      assert a + b == b;
    } else {
      assert (a + b)[1..] == a[1..] + b;
      CleanConcat(a[1..], b);
    }
  }

  lemma GroupNoBreaks(g: Group)
    ensures NoBreaks(EncodeGroup(g))
  {
  }

  lemma {:induction false} EncodeNoBreaks(src: seq<byte>)
    ensures NoBreaks(Encode(src))
  {
    if |src| > 0 {
      GroupNoBreaks(FirstGroup(src));
      if |src| > 3 {
        EncodeNoBreaks(src[3..]);
      }
    }
  }

  /** The bytes of a group. */
  function Bytes(g: Group): seq<byte> {
    match g case Bad => [] case One(a) => [a] case Two(a, b) => [a, b] case Three(a, b, c) => [a, b, c]
  }

  lemma DecodeUnfolds(t: seq<byte>, g: Group)
    requires |t| >= 4 && DecodeGroup(t[..4]) == g && !g.Bad? && (g.Three? || |t| == 4) && DecodeClean(t[4..]).Some?
    ensures DecodeClean(t) == Some(Bytes(g) + DecodeClean(t[4..]).value)
  {
    if !g.Three? {
      assert t[4..] == [];
      assert Bytes(g) + [] == Bytes(g);
    }
  }

  /** An encoded group, then the rest, decodes to the bytes of the group, then the rest. */
  lemma DecodesFirst(g: Group, rest: seq<byte>)
    requires !g.Bad? && (g.Three? || rest == []) && DecodeClean(rest).Some?
    ensures DecodeClean(EncodeGroup(g) + rest) == Some(Bytes(g) + DecodeClean(rest).value)
  {
    var t := EncodeGroup(g) + rest;
    GroupRoundTrip(g);
    assert t[..4] == EncodeGroup(g) && t[4..] == rest;
    DecodeUnfolds(t, g);
  }

  lemma FirstBytes(src: seq<byte>)
    requires |src| > 0
    ensures var g := FirstGroup(src);
            src == Bytes(g) + if |src| <= 3 then [] else src[3..]
  {
  }

  lemma {:induction false} GroupsRoundTrip(src: seq<byte>)
    ensures DecodeClean(Encode(src)) == Some(src)
    decreases |src|
  {
    if |src| > 0 {
      FirstBytes(src);
      var rest := if |src| <= 3 then [] else src[3..];
      GroupsRoundTrip(rest);
      DecodesFirst(FirstGroup(src), Encode(rest));
    }
  }

  /** The padded codec is an inverse pair. */
  lemma CodecRoundTrip(src: seq<byte>)
    ensures Decode(Encode(src)) == Some(src)
  {
    GroupsRoundTrip(src);
    EncodeNoBreaks(src);
    CleanSame(Encode(src));
  }

  /** A text of whole groups over the alphabet, of which at most the last two characters are
    padding. */
  ghost predicate WellPadded(t: seq<byte>) {
    |t| % 4 == 0 && exists k: nat :: k <= 2 && PaddedBy(t, k)
  }

  predicate PaddedBy(t: seq<byte>, k: nat) {
    && k <= |t| && (forall i | 0 <= i < |t| - k :: ValueOf(t[i]).Some?)
    && forall i | |t| - k <= i < |t| :: t[i] == PAD
  }

  lemma PaddedFour(t: seq<byte>)
    requires |t| == 4
    ensures var p, q, r, s := ValueOf(t[0]).Some?, ValueOf(t[1]).Some?, ValueOf(t[2]).Some?, ValueOf(t[3]).Some?;
            && (PaddedBy(t, 0) <==> p && q && r && s)
            && (PaddedBy(t, 1) <==> p && q && r && t[3] == PAD)
            && (PaddedBy(t, 2) <==> p && q && t[2] == PAD && t[3] == PAD)
  {
  }

  lemma GroupAccepts(t: seq<byte>)
    requires |t| == 4
    ensures DecodeGroup(t).Three? <==> PaddedBy(t, 0)
    ensures DecodeGroup(t).Two? <==> PaddedBy(t, 1)
    ensures DecodeGroup(t).One? <==> PaddedBy(t, 2)
  {
    PaddedFour(t);
    assert ValueOf(PAD) == None;
  }

  lemma PaddedTail(t: seq<byte>, k: nat)
    requires |t| > 4 && k <= 2 && |t| - 4 >= k
    ensures PaddedBy(t, k) <==> PaddedBy(t[..4], 0) && PaddedBy(t[4..], k)
  {
    if PaddedBy(t[..4], 0) && PaddedBy(t[4..], k) {
      forall i | 0 <= i < |t| - k ensures ValueOf(t[i]).Some? {
        assert t[i] == if i < 4 then t[..4][i] else t[4..][i - 4];
      }
      forall i | |t| - k <= i < |t| ensures t[i] == PAD {
        assert t[i] == t[4..][i - 4];
      }
    }
  }

  /** Exactly which texts are decoded: apart from line breaks, whole groups over the alphabet
    with padding at the end only. */
  lemma {:induction false} DecodeExact(t: seq<byte>)
    ensures DecodeClean(t).Some? <==> WellPadded(t)
  {
    if t == [] {
      assert PaddedBy(t, 0);
    } else if |t| >= 4 {
      GroupAccepts(t[..4]);
      if |t| == 4 {
        assert t[..4] == t;
        assert t[4..] == [];
        assert PaddedBy(t, 0) || PaddedBy(t, 1) || PaddedBy(t, 2) || DecodeGroup(t).Bad?;
        assert DecodeClean([]) == Some([]);
      } else {
        DecodeExact(t[4..]);
        LongerExact(t);
      }
    }
  }

  lemma LongerExact(t: seq<byte>)
    requires |t| > 4
    ensures WellPadded(t) <==> PaddedBy(t[..4], 0) && WellPadded(t[4..])
  {
    if WellPadded(t) {
      var k: nat :| k <= 2 && PaddedBy(t, k);
      PaddedTail(t, k);
    }
    if PaddedBy(t[..4], 0) && WellPadded(t[4..]) {
      var k: nat :| k <= 2 && PaddedBy(t[4..], k);
      PaddedTail(t, k);
    }
  }

  function Groups(n: nat): (r: nat)
    ensures n > 0 ==> r > 0
  {
    if n == 0 then 0 else if n <= 3 then 1 else 1 + Groups(n - 3)
  }

  /** How much padding the encoding of n bytes carries. */
  function PadCount(n: nat): (r: nat)
    ensures r < 3
  {
    if n == 0 then 0 else if n <= 3 then 3 - n else PadCount(n - 3)
  }

  lemma {:induction false} PadCountIs(n: nat)
    ensures PadCount(n) == if n % 3 == 0 then 0 else 3 - n % 3
  {
    if n > 3 {
      PadCountIs(n - 3);
    }
  }

  lemma {:induction false} EncodedSize(src: seq<byte>)
    ensures |Encode(src)| == 4 * Groups(|src|)
  {
    if |src| > 3 {
      EncodedSize(src[3..]);
    }
  }

  /** Short of k characters of whole groups, the padding to restore is k, but for k = 0. */
  lemma ShortBy(n: nat, k: nat, groups: nat)
    requires n + k == 4 * groups && k < 4
    ensures 4 - n % 4 == if k == 0 then 4 else k
  {
    if k > 0 {
      assert n == 4 * (groups - 1) + (4 - k);
    }
  }

  /** The last k characters are padding, and no other is. */
  predicate Padded(t: seq<byte>, k: nat) {
    k <= |t| && forall i | 0 <= i < |t| :: t[i] == PAD <==> i >= |t| - k
  }

  lemma PaddedAfter(head: seq<byte>, rest: seq<byte>, k: nat)
    requires PAD !in head && Padded(rest, k)
    ensures Padded(head + rest, k)
  {
    var t := head + rest;
    forall i | 0 <= i < |t| ensures t[i] == PAD <==> i >= |t| - k {
      assert i < |head| ==> t[i] in head;
      assert i >= |head| ==> t[i] == rest[i - |head|];
    }
  }

  function Spare(g: Group): nat
    requires !g.Bad?
  {
    match g case One(_) => 2 case Two(_, _) => 1 case Three(_, _, _) => 0
  }

  /** Where a group has its padding. */
  lemma GroupPadded(g: Group)
    requires !g.Bad?
    ensures Padded(EncodeGroup(g), Spare(g))
  {
    match g
    case One(a) =>
      ValueOfSymbol(a / 4);
      ValueOfSymbol(Second(a, 0));
    case Two(a, b) =>
      ValueOfSymbol(a / 4);
      ValueOfSymbol(Second(a, b));
      ValueOfSymbol(Third(b, 0));
    case Three(a, b, c) =>
      ValueOfSymbol(a / 4);
      ValueOfSymbol(Second(a, b));
      ValueOfSymbol(Third(b, c));
      ValueOfSymbol(c % 64);
  }

  /** The padding stands at the end. */
  lemma {:induction false} PadsAtEnd(src: seq<byte>)
    ensures Padded(Encode(src), PadCount(|src|))
  {
    if |src| > 0 {
      GroupPadded(FirstGroup(src));
    }
    if 0 < |src| <= 3 {
      assert Encode(src) == EncodeGroup(FirstGroup(src));
    } else if |src| > 3 {
      PadsAtEnd(src[3..]);
      PaddedAfter(EncodeGroup(FirstGroup(src)), Encode(src[3..]), PadCount(|src|));
    }
  }

  // --- trimming and restoring the padding ----------------------------------

  function Pads(n: nat): seq<byte> {
    seq(n, i requires 0 <= i < n => PAD)
  }

  /** Step back over the padding at the end of a buffer. */
  method TrimPads(buffer: seq<byte>, ghost k: nat) returns (dst: seq<byte>)
    requires Padded(buffer, k) && k < |buffer|
    ensures buffer == dst + Pads(k) && PAD !in dst
  {
    var n := |buffer|;
    while buffer[n - 1] == PAD
      invariant |buffer| - k <= n <= |buffer|
      decreases n
    {
      n := n - 1;
    }
    dst := buffer[..n];
  }

  /** The encoding without its padding. The trimming loop has nothing to stop at when there
    is nothing to encode. */
  method Base64Encode(src: seq<byte>) returns (dst: seq<byte>)
    requires |src| > 0
    ensures Encode(src) == dst + Pads(PadCount(|src|)) && PAD !in dst
  {
    PadsAtEnd(src);
    EncodedSize(src);
    dst := TrimPads(Encode(src), PadCount(|src|));
  }

  /** Restore the padding and decode. A whole number of groups gets four pads, not none. */
  method Base64Decode(src: seq<byte>) returns (r: Option<seq<byte>>)
    ensures r == Decode(src + Pads(4 - |src| % 4))
  {
    var numOfEquals := 4 - |src| % 4;
    var padded := src;
    for i := 0 to numOfEquals
      invariant padded == src + Pads(i)
    {
      padded := padded + [PAD];
    }
    r := Decode(padded);
  }

  lemma {:induction false} FourPadsBad(src: seq<byte>)
    ensures DecodeClean(src + Pads(4)) == None
  {
    var t := src + Pads(4);
    if |src| < 4 {
      assert t[3] == PAD;
      assert |src| == 0 ==> t[0] == PAD;
      assert |src| == 1 ==> t[1] == PAD;
    } else {
      assert t[4..] == src[4..] + Pads(4);
      FourPadsBad(src[4..]);
    }
  }

  /** Four padding characters at the end are refused, whatever comes before. */
  lemma PadGroupRefused(src: seq<byte>)
    ensures Decode(src + Pads(4)) == None
  {
    CleanConcat(src, Pads(4));
    CleanSame(Pads(4));
    FourPadsBad(Clean(src));
  }

  lemma RestoredText(src: seq<byte>, text: seq<byte>)
    requires Encode(src) == text + Pads(PadCount(|src|))
    ensures 4 - |text| % 4 == if PadCount(|src|) == 0 then 4 else PadCount(|src|)
    ensures PadCount(|src|) == 0 ==> |text| % 4 == 0
  {
    EncodedSize(src);
    ShortBy(|text|, PadCount(|src|), Groups(|src|));
  }

  /** The trimmed text decodes to what was encoded exactly when its length is no multiple of
    three; when it is, the text is refused. */
  lemma TrimRoundTrip(src: seq<byte>, text: seq<byte>)
    requires Encode(src) == text + Pads(PadCount(|src|))
    ensures Decode(text + Pads(4 - |text| % 4)) == if |src| % 3 == 0 then None else Some(src)
  {
    PadCountIs(|src|);
    RestoredText(src, text);
    if PadCount(|src|) == 0 {
      PadGroupRefused(text);
    } else {
      CodecRoundTrip(src);
    }
  }

  /** Encode then decode, as a caller does it. */
  method RoundTrip(src: seq<byte>) returns (r: Option<seq<byte>>)
    requires |src| > 0
    ensures r == if |src| % 3 == 0 then None else Some(src)
  {
    var text := Base64Encode(src);
    TrimRoundTrip(src, text);
    r := Base64Decode(text);
  }

  /** A stored password: whatever the salt of 16 bytes and the digest of 23, their texts
    have the sizes the format reserves, the printed hash parses back to the same record,
    and the salt decodes to the bytes it was made from. */
  lemma StoredPassword(salt: seq<byte>, digest: seq<byte>, cost: int, saltText: seq<byte>, hashText: seq<byte>)
    requires |salt| == 16 && |digest| == 23 && MIN_COST <= cost <= MAX_COST
    requires Encode(salt) == saltText + Pads(PadCount(16)) && Encode(digest) == hashText + Pads(PadCount(23))
    ensures |saltText| == ENCODED_SALT_SIZE && |hashText| == ENCODED_HASH_SIZE
    ensures var p := Hashed(hashText, saltText, cost, MAJOR_VERSION, 'a' as int); NewFromHash(Printed(p)) == Ok(p)
    ensures Decode(saltText + Pads(4 - |saltText| % 4)) == Some(salt)
  {
    EncodedSize(salt);
    EncodedSize(digest);
    assert Groups(16) == 6 && PadCount(16) == 2 && Groups(23) == 8 && PadCount(23) == 1;
    HashRoundTrip(Hashed(hashText, saltText, cost, MAJOR_VERSION, 'a' as int));
    TrimRoundTrip(salt, saltText);
  }
}

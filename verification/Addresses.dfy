/** Printing an IPv4 address and port into a fixed buffer, and parsing the text back. */
module Addresses {
  import opened Text

  type Word = w: nat | w < 0x1_0000_0000

  const NULL_IP: Word := 0
  const NULL_PORT: Word := 0
  const INET_ADDRSTRLEN := 16
  const MAX_PORT_STRLEN := 6

  // ----- Decimal numerals -----------------------------------------------------------------------

  predicate IsDigit(c: char) { '0' <= c <= '9' }

  predicate AllDigits(s: string) { forall i :: 0 <= i < |s| ==> IsDigit(s[i]) }

  function DigitChar(d: nat): (c: char)
    requires d < 10
    ensures IsDigit(c)
  {
    ('0' as int + d) as char
  }

  function Digits(n: nat): (s: string)
    ensures |s| >= 1 && AllDigits(s)
  {
    if n < 10 then [DigitChar(n)] else Digits(n / 10) + [DigitChar(n % 10)]
  }

  function Value(s: string): (v: int)
    requires AllDigits(s)
    ensures v >= 0
  {
    if s == "" then 0 else 10 * Value(s[..|s| - 1]) + (s[|s| - 1] as int - '0' as int)
  }

  lemma {:induction false} ValueOfDigits(n: nat)
    ensures Value(Digits(n)) == n
    ensures |Digits(n)| > 1 ==> Digits(n)[0] != '0'
    ensures n > 0 ==> Digits(n)[0] != '0'
    decreases n
  {
    if n >= 10 {
      ValueOfDigits(n / 10);
      assert Digits(n)[..|Digits(n)| - 1] == Digits(n / 10);
    } else {
      assert Digits(n)[..0] == "";
    }
  }

  function Pow10(k: nat): nat { if k == 0 then 1 else 10 * Pow10(k - 1) }

  lemma {:induction false} DigitsAtMost(n: nat, k: nat)
    requires k >= 1 && n < Pow10(k)
    ensures |Digits(n)| <= k
    decreases k
  {
    if n >= 10 {
      assert k > 1;
      DigitsAtMost(n / 10, k - 1);
    }
  }

  /** Cutting digits off the end makes the number smaller. */
  lemma {:induction false} CutIsSmaller(n: nat, m: nat)
    requires 1 <= m < |Digits(n)|
    ensures Value(Digits(n)[..m]) < n
    decreases n
  {
    var d := Digits(n);
    assert d[..|d| - 1] == Digits(n / 10);
    ValueOfDigits(n / 10);
    if m < |d| - 1 {
      CutIsSmaller(n / 10, m);
      assert d[..m] == Digits(n / 10)[..m];
    }
  }

  // ----- The library functions --------------------------------------------------------------------

  /** Octet `i` of an address in network byte order on a little-endian machine. */
  function Octet(ip: Word, i: nat): nat
    requires i < 4
  {
    match i
    case 0 => ip % 256
    case 1 => ip / 0x100 % 256
    case 2 => ip / 0x1_0000 % 256
    case 3 => ip / 0x100_0000
  }

  function OctetTexts(ip: Word): seq<string> {
    [Digits(Octet(ip, 0)), Digits(Octet(ip, 1)), Digits(Octet(ip, 2)), Digits(Octet(ip, 3))]
  }

  /** `inet_ntop` for IPv4. */
  function DottedQuad(ip: Word): string { Join(OctetTexts(ip), '.') }

  predicate ValidOctet(s: string) {
    1 <= |s| <= 3 && AllDigits(s) && (|s| > 1 ==> s[0] != '0') && Value(s) <= 255
  }

  predicate Quad(parts: seq<string>) {
    |parts| == 4 && ValidOctet(parts[0]) && ValidOctet(parts[1]) && ValidOctet(parts[2]) && ValidOctet(parts[3])
  }

  /** The address with the given octets. */
  function Packed(a: nat, b: nat, c: nat, d: nat): Word
    requires a < 256 && b < 256 && c < 256 && d < 256
  {
    a + 0x100 * b + 0x1_0000 * c + 0x100_0000 * d
  }

  /** `inet_pton` for IPv4, with the null address for text that is not a dotted quad. */
  function ToIp(s: string): Word {
    var parts := Split(s, '.');
    if Quad(parts) then Packed(Value(parts[0]), Value(parts[1]), Value(parts[2]), Value(parts[3])) else NULL_IP
  }

  /** The `%d` conversion of a 32-bit word: it is read as a signed number. */
  function Signed(w: Word): int { if w < 0x8000_0000 then w else w - 0x1_0000_0000 }

  function Unsigned(n: int): Word
    requires -0x8000_0000 <= n < 0x8000_0000
  {
    if n < 0 then n + 0x1_0000_0000 else n
  }

  function Decimal(n: int): string { if n < 0 then "-" + Digits(-n) else Digits(n) }

  datatype StoiResult = Number(n: int) | InvalidArgument | OutOfRange

  predicate IsSpace(c: char) { c == ' ' || '\t' <= c <= '\r' }

  function SkipSpace(s: string): string {
    if s != "" && IsSpace(s[0]) then SkipSpace(s[1..]) else s
  }

  function DigitPrefix(s: string): (p: string)
    ensures AllDigits(p)
  {
    if s != "" && IsDigit(s[0]) then [s[0]] + DigitPrefix(s[1..]) else ""
  }

  /** `std::stoi`: leading space, an optional sign, then the longest run of digits. */
  function Stoi(s: string): (r: StoiResult)
    ensures r.Number? ==> -0x8000_0000 <= r.n < 0x8000_0000
  {
    var t := SkipSpace(s);
    var negative := t != "" && t[0] == '-';
    var u := if t != "" && (t[0] == '-' || t[0] == '+') then t[1..] else t;
    var digits := DigitPrefix(u);
    if digits == "" then InvalidArgument else
      var n := if negative then -Value(digits) else Value(digits);
      if -0x8000_0000 <= n < 0x8000_0000 then Number(n) else OutOfRange
  }

  // ----- Parsing ------------------------------------------------------------------------------------

  /** `Throws`: the conversion of the port failed, after the address field was assigned.
      `Unassigned`: a text of seven characters without a colon sets neither field. */
  datatype ParseResult = Fields(ip: Word, port: Word) | Throws(ip: Word) | Unassigned

  function WithPort(ip: Word, portText: string): ParseResult {
    var r := Stoi(portText);
    if r.Number? then Fields(ip, Unsigned(r.n)) else Throws(ip)
  }

  function ParseText(s: string): ParseResult {
    var pos := LastIndexOf(s, ':');
    if pos < |s| then
      var ip := if pos == 0 then NULL_IP else ToIp(s[..pos]);
      if s[pos + 1..] == "" then Fields(ip, NULL_PORT) else WithPort(ip, s[pos + 1..])
    else if |s| >= 8 then Fields(ToIp(s), NULL_PORT)
    else if |s| <= 6 then WithPort(NULL_IP, s)
    else Unassigned
  }

  // ----- Printing -----------------------------------------------------------------------------------

  const BUFFER_SIZE := INET_ADDRSTRLEN + 1 + MAX_PORT_STRLEN

  /** What would be printed if the buffer had room for everything. */
  function FullText(ip: Word, port: Word): string { DottedQuad(ip) + ":" + Decimal(Signed(port)) }

  /** What the buffer holds: its last cell is the terminator. */
  function Printed(ip: Word, port: Word): string {
    var full := FullText(ip, port);
    if |full| < BUFFER_SIZE then full else full[..BUFFER_SIZE - 1]
  }

  class Address {
    var ip: Word
    var port: Word

    constructor (ip: Word, port: Word)
      ensures this.ip == ip && this.port == port
    {
      this.ip, this.port := ip, port;
    }

    /** Assign both fields from a text, as far as the program gets. */
    method AddressString(s: string) returns (r: ParseResult)
      modifies this
      ensures r == ParseText(s)
      ensures r.Fields? ==> ip == r.ip && port == r.port
      ensures r.Throws? ==> ip == r.ip && port == old(port)
      ensures r.Unassigned? ==> ip == old(ip) && port == old(port)
    {
      var pos := FindLastOf(s, ':');
      if pos < |s| {
        var ipText, portText := s[..pos], s[pos + 1..];
        ip := if ipText == "" then NULL_IP else ToIp(ipText);
        if portText == "" {
          port := NULL_PORT;
        } else {
          var n := Stoi(portText);
          if !n.Number? { return Throws(ip); }
          port := Unsigned(n.n);
        }
        return Fields(ip, port);
      } else if |s| >= 8 {
        ip, port := ToIp(s), NULL_PORT;
        return Fields(ip, port);
      } else if |s| <= 6 {
        ip := NULL_IP;
        var n := Stoi(s);
        if !n.Number? { return Throws(ip); }
        port := Unsigned(n.n);
        return Fields(ip, port);
      }
      r := Unassigned;
    }

    /** Print through the fixed, zeroed buffer. */
    method ToString() returns (s: string)
      ensures s == Printed(ip, port)
    {
      var buffer := new char[BUFFER_SIZE](i => '\0');
      QuadShape(ip);
      var quad := DottedQuad(ip);
      PrintBounded(buffer, 0, INET_ADDRSTRLEN, quad);
      assert buffer[..|quad|] == quad by { assert quad[..|quad|] == quad && buffer[0..|quad|] == buffer[..|quad|]; }
      var pos := StringLength(buffer, quad);
      PrintBounded(buffer, pos, BUFFER_SIZE - pos, ":" + Decimal(Signed(port)));
      BufferHolds(ip, port, buffer[..]);
      s := ReadToTerminator(buffer, Printed(ip, port));
    }
  }

  /** `strlen` of the buffer. */
  method StringLength(buffer: array<char>, ghost text: string) returns (n: nat)
    requires |text| < buffer.Length && buffer[..|text|] == text && buffer[|text|] == '\0' && '\0' !in text
    ensures n == |text|
  {
    assert forall j :: 0 <= j < |text| ==> buffer[j] == buffer[..|text|][j] == text[j];
    n := 0;
    while buffer[n] != '\0'
      invariant 0 <= n <= |text|
      decreases |text| - n
    {
      n := n + 1;
    }
  }

  /** Bounded printing at an offset: at most `room - 1` characters and a terminator; the rest of
      the buffer stays. */
  method PrintBounded(buffer: array<char>, pos: nat, room: nat, text: string)
    requires 1 <= room && pos + room <= buffer.Length
    modifies buffer
    ensures var n := if |text| < room then |text| else room - 1;
            && buffer[pos..pos + n] == text[..n] && buffer[pos + n] == '\0'
            && buffer[..pos] == old(buffer[..pos]) && buffer[pos + n + 1..] == old(buffer[pos + n + 1..])
  {
    var i := 0;
    while i < |text| && i < room - 1
      invariant 0 <= i <= |text| && i <= room - 1
      invariant forall j :: 0 <= j < i ==> buffer[pos + j] == text[j]
      invariant forall j :: 0 <= j < pos || pos + i <= j < buffer.Length ==> buffer[j] == old(buffer[j])
    {
      buffer[pos + i] := text[i];
      i := i + 1;
    }
    buffer[pos + i] := '\0';
  }

  /** Building a string from the buffer stops at the first terminator. */
  method ReadToTerminator(buffer: array<char>, ghost text: string) returns (s: string)
    requires |text| < buffer.Length && buffer[..|text|] == text && buffer[|text|] == '\0' && '\0' !in text
    ensures s == text
  {
    var n := StringLength(buffer, text);
    s := buffer[..n];
  }

  // ----- Shapes of the printed parts -----------------------------------------------------------------

  predicate QuadChar(c: char) { IsDigit(c) || c == '.' }

  lemma OctetShape(ip: Word, i: nat)
    requires i < 4
    ensures Octet(ip, i) <= 255 && ValidOctet(Digits(Octet(ip, i))) && Value(Digits(Octet(ip, i))) == Octet(ip, i)
  {
    ValueOfDigits(Octet(ip, i));
    assert Pow10(3) == 1000 by { assert Pow10(2) == 10 * Pow10(1) && Pow10(1) == 10 * Pow10(0); }
    DigitsAtMost(Octet(ip, i), 3);
  }

  lemma QuadUnfolds(ip: Word)
    ensures DottedQuad(ip)
            == OctetTexts(ip)[0] + "." + (OctetTexts(ip)[1] + "." + (OctetTexts(ip)[2] + "." + OctetTexts(ip)[3]))
  {
    var t := OctetTexts(ip);
    assert t[1..] == [t[1], t[2], t[3]] && t[1..][1..] == [t[2], t[3]] && t[1..][1..][1..] == [t[3]];
    assert Join([t[3]], '.') == t[3];
    assert Join([t[2], t[3]], '.') == t[2] + "." + t[3];
    assert Join([t[1], t[2], t[3]], '.') == t[1] + "." + (t[2] + "." + t[3]);
  }

  lemma QuadShape(ip: Word)
    ensures 7 <= |DottedQuad(ip)| <= 15
    ensures forall j :: 0 <= j < |DottedQuad(ip)| ==> QuadChar(DottedQuad(ip)[j])
  {
    var t := OctetTexts(ip);
    OctetShape(ip, 0);
    OctetShape(ip, 1);
    OctetShape(ip, 2);
    OctetShape(ip, 3);
    QuadUnfolds(ip);
    var tail2 := t[2] + "." + t[3];
    assert forall j :: 0 <= j < |tail2| ==> QuadChar(tail2[j]);
    var tail1 := t[1] + "." + tail2;
    assert forall j :: 0 <= j < |tail1| ==> QuadChar(tail1[j]);
  }

  lemma OctetsRebuild(ip: Word)
    ensures Octet(ip, 0) < 256 && Octet(ip, 1) < 256 && Octet(ip, 2) < 256 && Octet(ip, 3) < 256
    ensures Packed(Octet(ip, 0), Octet(ip, 1), Octet(ip, 2), Octet(ip, 3)) == ip
  {
    assert ip == ip / 256 * 256 + ip % 256;
    assert ip / 0x1_0000 == ip / 0x100 / 0x100 && ip / 0x100_0000 == ip / 0x1_0000 / 0x100;
  }

  lemma QuadRoundTrip(ip: Word)
    ensures ToIp(DottedQuad(ip)) == ip
  {
    var t := OctetTexts(ip);
    OctetShape(ip, 0);
    OctetShape(ip, 1);
    OctetShape(ip, 2);
    OctetShape(ip, 3);
    assert Free(t, '.');
    SplitJoin(t, '.');
    OctetsRebuild(ip);
  }

  /** A numeral without leading zeros is the one that is printed for its value. */
  lemma {:induction false} DigitsOfValue(s: string)
    requires s != "" && AllDigits(s) && (|s| > 1 ==> s[0] != '0')
    ensures Digits(Value(s)) == s
    decreases |s|
  {
    var n := |s| - 1;
    var init := s[..n];
    assert s == init + [s[n]];
    if n > 0 {
      DigitsOfValue(init);
      assert init[0] == s[0];
      assert Digits(0) == ['0'];
    } else {
      assert Value(init) == 0;
    }
  }

  lemma OctetsOfPacked(a: nat, b: nat, c: nat, d: nat)
    requires a < 256 && b < 256 && c < 256 && d < 256
    ensures var ip := Packed(a, b, c, d);
            Octet(ip, 0) == a && Octet(ip, 1) == b && Octet(ip, 2) == c && Octet(ip, 3) == d
  {
    var ip: int := Packed(a, b, c, d);
    assert ip / 0x100 == b + 0x100 * c + 0x1_0000 * d;
    assert ip / 0x1_0000 == c + 0x100 * d;
    assert ip / 0x100_0000 == d;
  }

  /** A text of four octets is the one that is printed for the address it parses to. */
  lemma QuadIsPrinted(s: string)
    requires Quad(Split(s, '.'))
    ensures DottedQuad(ToIp(s)) == s
  {
    var parts := Split(s, '.');
    OctetsOfPacked(Value(parts[0]), Value(parts[1]), Value(parts[2]), Value(parts[3]));
    DigitsOfValue(parts[0]);
    DigitsOfValue(parts[1]);
    DigitsOfValue(parts[2]);
    DigitsOfValue(parts[3]);
    assert OctetTexts(ToIp(s)) == parts;
    JoinSplit(s, '.');
  }

  /** A text parses to a real address exactly when it is what is printed for it; the null address
      also stands for every text that is not a dotted quad. */
  lemma ToIpInverse(s: string, ip: Word)
    ensures ip != NULL_IP ==> (ToIp(s) == ip <==> s == DottedQuad(ip))
    ensures ToIp(s) == NULL_IP <==> s == DottedQuad(NULL_IP) || !Quad(Split(s, '.'))
  {
    QuadRoundTrip(ip);
    QuadRoundTrip(NULL_IP);
    if Quad(Split(s, '.')) { QuadIsPrinted(s); }
  }

  lemma JoinFour(w: string, x: string, y: string, z: string)
    ensures Join([w, x, y, z], '.') == w + "." + x + "." + y + "." + z
  {
    var parts := [w, x, y, z];
    assert parts[1..] == [x, y, z] && [x, y, z][1..] == [y, z] && [y, z][1..] == [z];
    assert Join([z], '.') == z;
    assert Join([y, z], '.') == y + "." + z;
    assert Join([x, y, z], '.') == x + "." + (y + "." + z);
    assert w + "." + (x + "." + (y + "." + z)) == w + "." + x + "." + y + "." + z;
  }

  /** What is printed for an address with the given octets. */
  function QuadText(a: nat, b: nat, c: nat, d: nat): string {
    Digits(a) + "." + Digits(b) + "." + Digits(c) + "." + Digits(d)
  }

  lemma QuadOfParts(ip: Word, a: nat, b: nat, c: nat, d: nat)
    requires Octet(ip, 0) == a && Octet(ip, 1) == b && Octet(ip, 2) == c && Octet(ip, 3) == d
    ensures DottedQuad(ip) == QuadText(a, b, c, d)
  {
    JoinFour(Digits(a), Digits(b), Digits(c), Digits(d));
  }

  /** The first octet printed is the lowest byte of the address, the last the highest. */
  lemma QuadOfOctets(a: nat, b: nat, c: nat, d: nat)
    requires a < 256 && b < 256 && c < 256 && d < 256
    ensures DottedQuad(a + 0x100 * b + 0x1_0000 * c + 0x100_0000 * d) == QuadText(a, b, c, d)
  {
    OctetsOfPacked(a, b, c, d);
    QuadOfParts(Packed(a, b, c, d), a, b, c, d);
  }

  lemma SmallNumerals()
    ensures Digits(0) == "0" && Digits(1) == "1" && Digits(127) == "127"
  {
    assert Digits(12) == "12";
  }

  /** The loopback address as a word. */
  lemma LoopbackWord()
    ensures ToIp("127.0.0.1") == 0x0100_007f
  {
    var ip: Word := 127 + 0x100 * 0 + 0x1_0000 * 0 + 0x100_0000 * 1;
    QuadOfOctets(127, 0, 0, 1);
    SmallNumerals();
    assert "127" + "." + "0" + "." + "0" + "." + "1" == "127.0.0.1";
    QuadRoundTrip(ip);
  }

  lemma {:induction false} DigitPrefixOfDigits(s: string)
    requires AllDigits(s)
    ensures DigitPrefix(s) == s
    decreases |s|
  {
    if s != "" {
      DigitPrefixOfDigits(s[1..]);
      assert s == [s[0]] + s[1..];
    }
  }

  /** Reading a numeral with its sign. */
  lemma StoiOfNumeral(digits: string, negative: bool)
    requires digits != "" && AllDigits(digits)
    ensures var n := if negative then -Value(digits) else Value(digits);
            -0x8000_0000 <= n < 0x8000_0000 ==> Stoi(if negative then "-" + digits else digits) == Number(n)
  {
    DigitPrefixOfDigits(digits);
    if negative { assert ("-" + digits)[1..] == digits; }
  }

  /** A numeral cut short names a smaller number. */
  lemma NumeralCut(v: nat, m: nat)
    requires 1 <= m <= |Digits(v)|
    ensures AllDigits(Digits(v)[..m]) && Value(Digits(v)[..m]) <= v
    ensures Value(Digits(v)[..m]) == v <==> m == |Digits(v)|
  {
    ValueOfDigits(v);
    if m < |Digits(v)| {
      CutIsSmaller(v, m);
    } else {
      assert Digits(v)[..m] == Digits(v);
    }
  }

  lemma NumeralChars(digits: string)
    requires AllDigits(digits)
    ensures ':' !in digits && '\0' !in digits && ':' !in "-" + digits && '\0' !in "-" + digits
    ensures '.' !in digits && '.' !in "-" + digits
  {}

  /** The text after the colon, whole or cut. */
  lemma PortTextShape(port: Word, m: nat)
    requires 2 <= m <= |Decimal(Signed(port))|
    ensures var text := Decimal(Signed(port))[..m];
            && ':' !in text && '\0' !in text
            && (Stoi(text) == Number(Signed(port)) <==> m == |Decimal(Signed(port))|)
            && Stoi(text).Number?
  {
    var n := Signed(port);
    var v, k := if n < 0 then -n else n, if n < 0 then m - 1 else m;
    var digits := Digits(v)[..k];
    NumeralCut(v, k);
    NumeralChars(digits);
    StoiOfNumeral(digits, n < 0);
    assert Decimal(n)[..m] == if n < 0 then "-" + digits else digits;
  }

  lemma SmallPortText(port: Word)
    requires |Decimal(Signed(port))| < 2
    ensures ':' !in Decimal(Signed(port)) && '\0' !in Decimal(Signed(port))
    ensures Stoi(Decimal(Signed(port))) == Number(Signed(port))
  {
    var n := Signed(port);
    assert n >= 0;
    ValueOfDigits(n);
    StoiOfNumeral(Digits(n), false);
  }

  /** The printed text is the quad, a colon and as much of the port as fits. */
  lemma PrintedParts(ip: Word, port: Word)
    ensures var quad, d := DottedQuad(ip), Decimal(Signed(port));
            var room := BUFFER_SIZE - 2 - |quad|;
            var m := if |d| <= room then |d| else room;
            && room >= 6
            && Printed(ip, port) == quad + ":" + d[..m]
            && (|FullText(ip, port)| < BUFFER_SIZE <==> m == |d|)
  {
    QuadShape(ip);
    var quad, d := DottedQuad(ip), Decimal(Signed(port));
    var room := BUFFER_SIZE - 2 - |quad|;
    if |d| <= room {
      assert d[..|d|] == d;
    } else {
      assert (quad + ":" + d)[..BUFFER_SIZE - 1] == quad + ":" + d[..room];
    }
  }

  lemma NoTerminator(ip: Word, port: Word)
    ensures '\0' !in Printed(ip, port)
  {
    QuadShape(ip);
    PrintedParts(ip, port);
    var d := Decimal(Signed(port));
    if |d| < 2 { SmallPortText(port); } else { PortTextShape(port, |d|); }
    assert d[..|d|] == d;
    assert forall j :: 0 <= j < |d| ==> d[j] in d;
  }

  /** After both prints the buffer holds the printed text and a terminator. */
  lemma BufferHolds(ip: Word, port: Word, buffer: seq<char>)
    requires |buffer| == BUFFER_SIZE && |DottedQuad(ip)| <= 15
    requires var pos, text := |DottedQuad(ip)|, ":" + Decimal(Signed(port));
             var n := if |text| < BUFFER_SIZE - pos then |text| else BUFFER_SIZE - pos - 1;
             && buffer[..pos] == DottedQuad(ip) && buffer[pos..pos + n] == text[..n] && buffer[pos + n] == '\0'
    ensures var text := Printed(ip, port);
            |text| < BUFFER_SIZE && buffer[..|text|] == text && buffer[|text|] == '\0' && '\0' !in text
  {
    PrintedParts(ip, port);
    NoTerminator(ip, port);
    var quad, d := DottedQuad(ip), Decimal(Signed(port));
    var m := if |d| <= BUFFER_SIZE - 2 - |quad| then |d| else BUFFER_SIZE - 2 - |quad|;
    Adjacent(buffer, quad, ":", d, m);
  }

  lemma Adjacent(buffer: seq<char>, quad: string, mark: string, d: string, m: nat)
    requires |mark| == 1 && m <= |d| && |quad| + 1 + m < |buffer|
    requires buffer[..|quad|] == quad && buffer[|quad|..|quad| + 1 + m] == (mark + d)[..1 + m]
    ensures buffer[..|quad| + 1 + m] == quad + mark + d[..m]
  {
    assert (mark + d)[..1 + m] == mark + d[..m];
    assert buffer[..|quad| + 1 + m] == buffer[..|quad|] + buffer[|quad|..|quad| + 1 + m];
  }

  // ----- Round trip ----------------------------------------------------------------------------------

  lemma SignedRoundTrip(port: Word)
    ensures Unsigned(Signed(port)) == port
    ensures forall n :: -0x8000_0000 <= n < 0x8000_0000 && Unsigned(n) == port ==> n == Signed(port)
  {}

  /** Parsing what was printed gives the same address and port exactly when the full text and its
      terminator fit the buffer. */
  lemma RoundTripIffFits(ip: Word, port: Word)
    ensures ParseText(Printed(ip, port)) == Fields(ip, port) <==> |FullText(ip, port)| < BUFFER_SIZE
  {
    var text, quad, d := Printed(ip, port), DottedQuad(ip), Decimal(Signed(port));
    QuadShape(ip);
    PrintedParts(ip, port);
    var room := BUFFER_SIZE - 2 - |quad|;
    var m := if |d| <= room then |d| else room;
    if |d| < 2 { SmallPortText(port); } else { PortTextShape(port, m); }
    assert d[..|d|] == d;
    assert text[|quad|] == ':' && text[|quad| + 1..] == d[..m] && text[..|quad|] == quad;
    LastIndexUnique(text, ':', |quad|);
    QuadRoundTrip(ip);
    SignedRoundTrip(port);
  }

  // ----- Texts without a port, or without an address -------------------------------------------------

  lemma NoColon(s: string)
    requires ':' !in s
    ensures LastIndexOf(s, ':') == |s|
  {}

  /** A bare address is parsed with the null port, unless it is seven characters long: then it is
      taken for neither an address nor a port. */
  lemma BareAddress(ip: Word)
    ensures ParseText(DottedQuad(ip)) == if |DottedQuad(ip)| == 7 then Unassigned else Fields(ip, NULL_PORT)
  {
    QuadShape(ip);
    NoColon(DottedQuad(ip));
    QuadRoundTrip(ip);
  }

  /** A bare port is parsed with the null address when it has up to six characters; seven are
      taken for nothing, and more for an address. */
  lemma BarePort(port: Word)
    ensures var text := Decimal(Signed(port));
            ParseText(text) == if |text| <= 6 then Fields(NULL_IP, port)
                               else if |text| == 7 then Unassigned
                               else Fields(NULL_IP, NULL_PORT)
  {
    PortText(port);
    NoColon(Decimal(Signed(port)));
    NoDotNoAddress(Decimal(Signed(port)));
    SignedRoundTrip(port);
  }

  lemma PortText(port: Word)
    ensures var text := Decimal(Signed(port));
            text != "" && ':' !in text && '.' !in text && Stoi(text) == Number(Signed(port))
  {
    var n := Signed(port);
    var v := if n < 0 then -n else n;
    NumeralChars(Digits(v));
    NumeralValue(v, n < 0);
  }

  lemma NumeralValue(v: nat, negative: bool)
    requires v <= 0x7fff_ffff || (negative && v == 0x8000_0000)
    ensures var n: int := if negative then 0 - v else v;
            Stoi(if negative then "-" + Digits(v) else Digits(v)) == Number(n)
  {
    ValueOfDigits(v);
    StoiOfNumeral(Digits(v), negative);
  }

  lemma NoDotNoAddress(s: string)
    requires '.' !in s
    ensures ToIp(s) == NULL_IP
  {
    assert s[..|s|] == s;
    SplitAt(s, '.', |s|);
  }

  lemma SplitAtColon(left: string, right: string)
    requires ':' !in right
    ensures var s := left + ":" + right;
            LastIndexOf(s, ':') == |left| && s[..|left|] == left && s[|left| + 1..] == right
  {
    LastIndexUnique(left + ":" + right, ':', |left|);
  }

  /** An address with an empty port has the null port. */
  lemma EmptyPort(ip: Word)
    ensures ParseText(DottedQuad(ip) + ":") == Fields(ip, NULL_PORT)
  {
    QuadShape(ip);
    QuadRoundTrip(ip);
    SplitAtColon(DottedQuad(ip), "");
    assert DottedQuad(ip) + ":" + "" == DottedQuad(ip) + ":";
  }

  /** A port with an empty address has the null address. */
  lemma EmptyAddress(port: Word)
    ensures ParseText(":" + Decimal(Signed(port))) == Fields(NULL_IP, port)
  {
    PortText(port);
    SplitAtColon("", Decimal(Signed(port)));
    assert "" + ":" + Decimal(Signed(port)) == ":" + Decimal(Signed(port));
    SignedRoundTrip(port);
  }

  /** Every port below one million fits, whatever the address. */
  lemma SixDigitPortsFit(ip: Word, port: Word)
    requires port < 1_000_000
    ensures |FullText(ip, port)| < BUFFER_SIZE
    ensures ParseText(Printed(ip, port)) == Fields(ip, port)
  {
    assert Pow10(6) == 1_000_000 by {
      assert Pow10(3) == 1000 by { assert Pow10(2) == 10 * Pow10(1) && Pow10(1) == 10 * Pow10(0); }
      assert Pow10(5) == 10 * Pow10(4) && Pow10(4) == 10 * Pow10(3);
    }
    DigitsAtMost(port, 6);
    QuadShape(ip);
    RoundTripIffFits(ip, port);
  }

  /** A seven-digit port behind a long address is cut: 255.255.255.255 and port 1000000. */
  lemma SevenDigitPortIsCut()
    ensures ParseText(Printed(0xffff_ffff, 1_000_000)) != Fields(0xffff_ffff, 1_000_000)
  {
    var ip: Word := 0xffff_ffff;
    assert Octet(ip, 0) == Octet(ip, 1) == Octet(ip, 2) == Octet(ip, 3) == 255;
    assert |Digits(255)| == 3 by { assert |Digits(25)| == 2 && |Digits(2)| == 1; }
    QuadUnfolds(ip);
    assert |Digits(1_000_000)| == 7 by {
      assert |Digits(100)| == 3 by { assert |Digits(10)| == 2; }
      assert |Digits(100_000)| == 6 by { assert |Digits(10_000)| == 5 by { assert |Digits(1000)| == 4; } }
    }
    RoundTripIffFits(ip, 1_000_000);
  }
}

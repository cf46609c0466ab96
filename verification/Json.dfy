/**
  JSON objects, texts, natural numbers and booleans: a reader, a printer, and the proof that
  reading a print gives the value back.  Texts hold no escapes.
 */
module Json {
  import opened Options

  datatype Json =
    | Object(members: seq<Member>)
    | Text(text: string)
    | Number(number: nat)
    | Flag(flag: bool)

  datatype Member = Member(name: string, value: Json)

  /** What was read and the input left. */
  datatype Reading<+T> = Read(value: T, rest: string) | Malformed

  // ----- Reading.

  predicate IsDigit(c: char) {
    '0' <= c <= '9'
  }

  /** A character that stands for itself inside a text. */
  predicate IsPlain(c: char) {
    ' ' <= c && c != '"' && c != '\\'
  }

  predicate IsSpace(c: char) {
    c == ' ' || c == '\t' || c == '\n' || c == '\r'
  }

  predicate Plain(s: string) {
    forall i :: 0 <= i < |s| ==> IsPlain(s[i])
  }

  predicate Digits(s: string) {
    forall i :: 0 <= i < |s| ==> IsDigit(s[i])
  }

  /** The number written in base ten or eight. */
  function Numeral(s: string, base: nat): (n: nat)
    requires Digits(s)
  {
    if s == "" then 0
    else
      assert IsDigit(s[|s| - 1]);
      base * Numeral(s[..|s| - 1], base) + (s[|s| - 1] as int - '0' as int)
  }

  function LeadingDigits(s: string): (k: nat)
    ensures k <= |s| && Digits(s[..k])
    ensures k < |s| ==> !IsDigit(s[k])
  {
    if s == "" || !IsDigit(s[0]) then 0 else 1 + LeadingDigits(s[1..])
  }

  /** A text after its opening quote. */
  function ReadText(s: string): (r: Reading<string>)
    ensures r.Read? ==> |r.rest| < |s|
  {
    if s == "" then Malformed
    else if s[0] == '"' then Read("", s[1..])
    else if !IsPlain(s[0]) then Malformed
    else
      match ReadText(s[1..])
      case Malformed => Malformed
      case Read(text, rest) => Read([s[0]] + text, rest)
  }

  function ReadNumber(s: string): (r: Reading<Json>)
    ensures r.Read? ==> |r.rest| < |s|
  {
    var k := LeadingDigits(s);
    if k == 0 || (k > 1 && s[0] == '0') then Malformed
    else Read(Number(Numeral(s[..k], 10)), s[k..])
  }

  function ReadValue(s: string): (r: Reading<Json>)
    ensures r.Read? ==> |r.rest| < |s|
    decreases |s|, 0
  {
    if s == "" then Malformed
    else if "{}" <= s then Read(Object([]), s[2..])
    else if s[0] == '{' then
      match ReadMembers(s[1..])
      case Malformed => Malformed
      case Read(members, rest) => Read(Object(members), rest)
    else if s[0] == '"' then
      match ReadText(s[1..])
      case Malformed => Malformed
      case Read(text, rest) => Read(Text(text), rest)
    else if "true" <= s then Read(Flag(true), s[4..])
    else if "false" <= s then Read(Flag(false), s[5..])
    else ReadNumber(s)
  }

  /** One member or more, up to and with the closing brace. */
  function ReadMembers(s: string): (r: Reading<seq<Member>>)
    ensures r.Read? ==> |r.rest| < |s|
    decreases |s|, 1
  {
    if s == "" || s[0] != '"' then Malformed
    else
      match ReadText(s[1..])
      case Malformed => Malformed
      case Read(name, rest) =>
        if rest == "" || rest[0] != ':' then Malformed
        else
          match ReadValue(rest[1..])
          case Malformed => Malformed
          case Read(value, rest) =>
            if rest == "" then Malformed
            else if rest[0] == '}' then Read([Member(name, value)], rest[1..])
            else if rest[0] != ',' then Malformed
            else
              match ReadMembers(rest[1..])
              case Malformed => Malformed
              case Read(members, rest) => Read([Member(name, value)] + members, rest)
  }

  /** The value of a whole file: white space may follow it. */
  function Load(s: string): Option<Json> {
    match ReadValue(s)
    case Malformed => None
    case Read(value, rest) => if forall i :: 0 <= i < |rest| ==> IsSpace(rest[i]) then Some(value) else None
  }

  // ----- Members by name.

  /** The value under a name; the last one where a name repeats. */
  function Find(members: seq<Member>, name: string): Option<Json> {
    if members == [] then None
    else if members[|members| - 1].name == name then Some(members[|members| - 1].value)
    else Find(members[..|members| - 1], name)
  }

  function Field(j: Option<Json>, name: string): Option<Json> {
    if j.Some? && j.value.Object? then Find(j.value.members, name) else None
  }

  lemma {:induction false} FindUnique(members: seq<Member>, k: nat)
    requires k < |members| && forall i :: k < i < |members| ==> members[i].name != members[k].name
    ensures Find(members, members[k].name) == Some(members[k].value)
  {
    if k < |members| - 1 {
      FindUnique(members[..|members| - 1], k);
    }
  }

  // ----- Printing.

  function Decimal(n: nat): (s: string)
    ensures s != "" && Digits(s)
  {
    if n < 10 then ['0' + n as char] else Decimal(n / 10) + ['0' + (n % 10) as char]
  }

  function Print(j: Json): string {
    match j
    case Object(members) => if members == [] then "{}" else "{" + PrintMembers(members)
    case Text(text) => "\"" + text + "\""
    case Number(number) => Decimal(number)
    case Flag(flag) => if flag then "true" else "false"
  }

  function PrintMembers(members: seq<Member>): string
    requires members != []
  {
    "\"" + members[0].name + "\":" + Print(members[0].value)
    + (if |members| == 1 then "}" else "," + PrintMembers(members[1..]))
  }

  /** Every text of the value is plain. */
  predicate Printable(j: Json) {
    match j
    case Object(members) => forall m | m in members :: Plain(m.name) && Printable(m.value)
    case Text(text) => Plain(text)
    case Number(_) => true
    case Flag(_) => true
  }

  // ----- Reading a print.

  lemma {:induction false} ReadOfText(text: string, rest: string)
    requires Plain(text)
    ensures ReadText(text + "\"" + rest) == Read(text, rest)
  {
    if text == "" {
      assert text + "\"" + rest == "\"" + rest;
    } else {
      ReadOfText(text[1..], rest);
      assert (text + "\"" + rest)[1..] == text[1..] + "\"" + rest;
      assert text == [text[0]] + text[1..];
    }
  }

  lemma {:induction false} NumeralOfDecimal(n: nat)
    ensures Numeral(Decimal(n), 10) == n
    ensures Decimal(n)[0] == '0' ==> |Decimal(n)| == 1 && n == 0
  {
    var d := Decimal(n);
    if n >= 10 {
      NumeralOfDecimal(n / 10);
      assert d[..|d| - 1] == Decimal(n / 10);
      assert d[0] == Decimal(n / 10)[0];
    } else {
      assert d[..0] == "" && Numeral("", 10) == 0;
    }
  }

  lemma {:induction false} RunOfDigits(digits: string, rest: string)
    requires Digits(digits) && (rest == "" || !IsDigit(rest[0]))
    ensures LeadingDigits(digits + rest) == |digits|
  {
    if digits == "" {
      assert digits + rest == rest;
    } else {
      RunOfDigits(digits[1..], rest);
      assert (digits + rest)[1..] == digits[1..] + rest;
    }
  }

  lemma ReadOfDecimal(n: nat, rest: string)
    requires rest == "" || !IsDigit(rest[0])
    ensures ReadValue(Decimal(n) + rest) == Read(Number(n), rest)
  {
    hide Decimal, Numeral, LeadingDigits;
    var d := Decimal(n);
    NumeralOfDecimal(n);
    RunOfDigits(d, rest);
    var s := d + rest;
    assert IsDigit(s[0]) by { assert IsDigit(d[0]) && s[0] == d[0]; }
    assert s[..|d|] == d && s[|d|..] == rest;
    assert "{}"[0] == '{' && "true"[0] == 't' && "false"[0] == 'f';
  }

  lemma ReadOfQuoted(text: string, rest: string)
    requires Plain(text)
    ensures ReadValue("\"" + text + "\"" + rest) == Read(Text(text), rest)
  {
    hide ReadNumber, ReadText, ReadMembers;
    var s := "\"" + text + "\"" + rest;
    ReadOfText(text, rest);
    assert s[0] == '"' && s[1..] == text + "\"" + rest;
    assert "{}"[0] == '{';
  }

  lemma ReadOfFlag(flag: bool, rest: string)
    ensures ReadValue((if flag then "true" else "false") + rest) == Read(Flag(flag), rest)
  {
    hide ReadNumber, ReadText, ReadMembers;
    var s := (if flag then "true" else "false") + rest;
    assert "{}"[0] == '{' && "true"[0] == 't';
    assert if flag then s[0] == 't' && s[4..] == rest else s[0] == 'f' && s[5..] == rest;
  }

  /** An object is read as its members are. */
  lemma ReadOfObject(s: string)
    requires s != "" && s[0] == '"'
    ensures ReadValue("{" + s)
         == match ReadMembers(s)
            case Malformed => Malformed
            case Read(members, rest) => Read(Object(members), rest)
  {
    hide ReadNumber, ReadText, ReadMembers;
    var t := "{" + s;
    assert t[0] == '{' && t[1] == '"' && t[1..] == s;
    assert "{}"[1] == '}';
  }

  /** Reading a printed value gives it back and leaves the rest. */
  lemma {:induction false} ReadOfPrint(j: Json, rest: string)
    requires Printable(j) && (rest == "" || !IsDigit(rest[0]))
    ensures ReadValue(Print(j) + rest) == Read(j, rest)
    decreases j
  {
    hide Decimal, ReadValue, ReadMembers, PrintMembers;
    match j
    case Object(members) =>
      if members == [] {
        ReadOfEmpty(rest);
      } else {
        ReadOfMembers(members, rest);
        var s := PrintMembers(members) + rest;
        assert "{" + PrintMembers(members) + rest == "{" + s;
        ReadOfObject(s);
      }
    case Text(text) => ReadOfQuoted(text, rest);
    case Number(number) => ReadOfDecimal(number, rest);
    case Flag(flag) => ReadOfFlag(flag, rest);
  }

  lemma ReadOfEmpty(rest: string)
    ensures ReadValue("{}" + rest) == Read(Object([]), rest)
  {
    assert ("{}" + rest)[2..] == rest;
  }

  lemma {:induction false} ReadOfMembers(members: seq<Member>, rest: string)
    requires members != [] && forall m | m in members :: Plain(m.name) && Printable(m.value)
    ensures ReadMembers(PrintMembers(members) + rest) == Read(members, rest)
    ensures PrintMembers(members) != "" && PrintMembers(members)[0] == '"'
    decreases members
  {
    hide Print, ReadValue, ReadText;
    var m := members[0];
    var end := if |members| == 1 then "}" else "," + PrintMembers(members[1..]);
    var s := PrintMembers(members) + rest;
    var value := Print(m.value) + (end + rest);
    assert m in members;
    ReadOfText(m.name, ":" + value);
    ReadOfPrint(m.value, end + rest);
    MemberParts(m.name, Print(m.value), end, rest);
    if |members| == 1 {
      assert (end + rest)[1..] == rest;
      assert members == [m];
    } else {
      ReadOfMembers(members[1..], rest);
      assert (end + rest)[1..] == PrintMembers(members[1..]) + rest;
      assert members == [m] + members[1..];
    }
  }

  lemma MemberParts(name: string, value: string, end: string, rest: string)
    ensures var s := "\"" + name + "\":" + value + end + rest;
            s[0] == '"' && s[1..] == name + "\"" + (":" + (value + (end + rest)))
  {
    var t := ":" + (value + (end + rest));
    assert "\":" + value + end + rest == "\"" + t;
  }
}

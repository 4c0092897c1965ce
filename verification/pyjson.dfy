/** The values `json.load` produces from aspirate-state.json, and the three
    things the script does with them: test their truthiness (`if not v`),
    look keys up with `dict.get`, and format them into text (`f"{v}"`). */
module PyJson {
  /** A parsed JSON value. `Object` keeps the members in document order,
      which is the iteration order of the Python dict built from it. */
  datatype Json =
    | Null
    | Bool(b: bool)
    | Number(n: int)
    | Str(s: string)
    | Array(items: seq<Json>)
    | Object(members: seq<(string, Json)>)

  /** Python truthiness: `None`, `False`, `0` and empty strings, lists and
      dicts are false, everything else is true. */
  predicate Truthy(v: Json) {
    match v
    case Null => false
    case Bool(b) => b
    case Number(n) => n != 0
    case Str(s) => s != ""
    case Array(items) => items != []
    case Object(members) => members != []
  }

  /** The name Python reports for the value's type in error messages. */
  function TypeName(v: Json): string {
    match v
    case Null => "NoneType"
    case Bool(_) => "bool"
    case Number(_) => "int"
    case Str(_) => "str"
    case Array(_) => "list"
    case Object(_) => "dict"
  }

  /** The position of the first member named `key`, or `|members|` when
      there is none. */
  function FirstIndex(members: seq<(string, Json)>, key: string): (k: nat)
    ensures k <= |members|
    ensures k < |members| ==> members[k].0 == key
    ensures forall j | 0 <= j < k :: members[j].0 != key
  {
    if members == [] then 0
    else if members[0].0 == key then 0
    else
      var k := FirstIndex(members[1..], key);
      assert forall j | 1 <= j < |members| :: members[j] == members[1..][j - 1];
      k + 1
  }

  /** `d.get(key, default)` on a dict whose members are `members`. */
  function Get(members: seq<(string, Json)>, key: string, default: Json): (r: Json)
    ensures (forall i | 0 <= i < |members| :: members[i].0 != key) ==> r == default
    ensures forall i | 0 <= i < |members| && members[i].0 == key ::
              (forall j | 0 <= j < i :: members[j].0 != key) ==> r == members[i].1
  {
    var k := FirstIndex(members, key);
    if k < |members| then members[k].1 else default
  }

  /** The text of `str(n)` for a Python int. */
  function DecimalDigits(n: nat): (t: string)
    ensures |t| >= 1
    ensures forall k | 0 <= k < |t| :: '0' <= t[k] <= '9'
    ensures |t| > 1 ==> t[0] != '0'
    decreases n
  {
    var d := [('0' as int + n % 10) as char];
    if n < 10 then d else DecimalDigits(n / 10) + d
  }

  /** The number a string of decimal digits denotes, most significant first. */
  function DigitsValue(t: string): nat
    requires forall k | 0 <= k < |t| :: '0' <= t[k] <= '9'
    decreases |t|
  {
    if t == [] then 0
    else DigitsValue(t[..|t| - 1]) * 10 + (t[|t| - 1] as int - '0' as int)
  }

  /** Reading back the digits of `str(n)` gives `n`: the text written for a
      number is its decimal numeral. */
  lemma {:induction false} DecimalDigitsValue(n: nat)
    ensures DigitsValue(DecimalDigits(n)) == n
    decreases n
  {
    if n >= 10 {
      DecimalDigitsValue(n / 10);
      var t := DecimalDigits(n);
      assert t[..|t| - 1] == DecimalDigits(n / 10);
      assert DigitsValue(t) == (n / 10) * 10 + n % 10;
    }
  }

  function IntText(n: int): string {
    if n < 0 then "-" + DecimalDigits(-n) else DecimalDigits(n)
  }

  /** Two lower-case hexadecimal digits of a code point below 256. */
  function Hex2(n: nat): string
    requires n < 256
  {
    ["0123456789abcdef"[n / 16], "0123456789abcdef"[n % 16]]
  }

  /** One character of a string literal as `repr` writes it, inside quotes `q`. */
  function EscapeChar(c: char, q: char): string {
    if c == q || c == '\\' then ['\\', c]
    else if c == '\t' then "\\t"
    else if c == '\n' then "\\n"
    else if c == '\r' then "\\r"
    else if (c as int) < 0x20 || (c as int) == 0x7f then "\\x" + Hex2(c as int)
    else [c]
  }

  function EscapeString(s: string, q: char): string
    decreases |s|
  {
    if s == [] then "" else EscapeChar(s[0], q) + EscapeString(s[1..], q)
  }

  /** `repr(s)`: single quotes unless the text holds a single quote and no
      double quote. */
  function QuoteString(s: string): string {
    var q := if '\'' in s && '"' !in s then '"' else '\'';
    [q] + EscapeString(s, q) + [q]
  }

  /** `repr(v)`, the form a value takes inside a list or dict display. */
  function Repr(v: Json): string
    decreases v, 1
  {
    match v
    case Null => "None"
    case Bool(b) => if b then "True" else "False"
    case Number(n) => IntText(n)
    case Str(s) => QuoteString(s)
    case Array(items) => "[" + ReprItems(v, items) + "]"
    case Object(members) => "{" + ReprMembers(v, members) + "}"
  }

  function ReprItems(ghost parent: Json, items: seq<Json>): string
    requires forall x | x in items :: x < parent
    decreases parent, 0, |items|
  {
    if items == [] then ""
    else
      assert items[0] in items;
      if |items| == 1 then Repr(items[0])
      else
        assert forall x | x in items[1..] :: x in items;
        Repr(items[0]) + ", " + ReprItems(parent, items[1..])
  }

  function ReprMembers(ghost parent: Json, members: seq<(string, Json)>): string
    requires forall m | m in members :: m.1 < parent
    decreases parent, 0, |members|
  {
    if members == [] then ""
    else
      assert members[0] in members;
      assert forall m | m in members[1..] :: m in members;
      var m := QuoteString(members[0].0) + ": " + Repr(members[0].1);
      if |members| == 1 then m else m + ", " + ReprMembers(parent, members[1..])
  }

  /** `f"{v}"`: a string is written as itself, every other value as its repr. */
  function Format(v: Json): (t: string)
    ensures v.Str? ==> t == v.s
    ensures v.Null? ==> t == "None"
    ensures v.Bool? ==> t == (if v.b then "True" else "False")
    ensures v.Number? && v.n >= 0 ==> t == DecimalDigits(v.n)
    ensures v.Number? && v.n < 0 ==> t == "-" + DecimalDigits(-v.n)
    ensures v.Array? ==> |t| >= 2 && t[0] == '[' && t[|t| - 1] == ']'
    ensures v.Object? ==> |t| >= 2 && t[0] == '{' && t[|t| - 1] == '}'
  {
    match v
    case Str(s) => s
    case _ => Repr(v)
  }
}

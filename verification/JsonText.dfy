/**
 The compact text of a JSON value, as the serialiser prints it, and a reader of JSON text that follows RFC 8259.
 Reading the text of a value back gives the value, so the text determines it.
 */
module JsonText {
  import opened Json

  // ---------------------------------------------------------------- strings

  function Hex(n: nat): char
    requires n < 16
  {
    "0123456789abcdef"[n]
  }

  /** Quotes, backslashes and control characters are escaped; everything else stands for itself. */
  function Escape(c: char): string {
    if c == '\"' then "\\\""
    else if c == '\\' then "\\\\"
    else if c == 8 as char then "\\b"
    else if c == '\t' then "\\t"
    else if c == '\n' then "\\n"
    else if c == 12 as char then "\\f"
    else if c == '\r' then "\\r"
    else if c < ' ' then "\\u00" + [Hex(c as int / 16), Hex(c as int % 16)]
    else [c]
  }

  /** The escaped characters and the closing quote. */
  function Closed(s: string): string {
    if s == [] then "\"" else Escape(s[0]) + Closed(s[1..])
  }

  function Quoted(s: string): string {
    "\"" + Closed(s)
  }

  // ---------------------------------------------------------------- values

  function Text(v: Json): string {
    match v
    case Null => "null"
    case Bool(flag) => if flag then "true" else "false"
    case Number(text) => text
    case Str(text) => Quoted(text)
    case Arr(items) => "[" + (if items == [] then "]" else Text(items[0]) + MoreItems(items[1..]))
    case Obj(ms) => "{" + (if ms == [] then "}" else Field(ms[0]) + MoreFields(ms[1..]))
  }

  function Field(m: Member): string {
    Quoted(m.key) + (":" + Text(m.value))
  }

  /** The items after the first, and the closing bracket. */
  function MoreItems(items: seq<Json>): string {
    if items == [] then "]" else "," + (Text(items[0]) + MoreItems(items[1..]))
  }

  function MoreFields(ms: seq<Member>): string {
    if ms == [] then "}" else "," + (Field(ms[0]) + MoreFields(ms[1..]))
  }

  // ---------------------------------------------------------------- concatenation

  lemma PrefixesOf(a: string, b: string, x: string, y: string)
    requires a + x == b + y && |a| == |b|
    ensures a == b && x == y
  {
    assert a == (a + x)[..|a|] && b == (b + y)[..|a|];
    assert x == (a + x)[|a|..] && y == (b + y)[|a|..];
  }

  lemma Regroup(a: string, b: string, c: string)
    ensures (a + b) + c == a + (b + c)
  {
  }

  lemma CancelHead(c: char, x: string, y: string)
    requires [c] + x == [c] + y
    ensures x == y
  {
    assert x == ([c] + x)[1..] && y == ([c] + y)[1..];
  }

  // ---------------------------------------------------------------- reading strings

  datatype Read<T> = Nothing | Found(value: T, rest: string)

  /** The value of a hexadecimal digit, in either case. */
  function Digit(c: char): int {
    if '0' <= c <= '9' then c as int - '0' as int
    else if 'a' <= c <= 'f' then c as int - 'a' as int + 10
    else if 'A' <= c <= 'F' then c as int - 'A' as int + 10
    else -1
  }

  /** The character a short escape stands for: section 7 of RFC 8259. */
  function ShortEscape(c: char): Read<char> {
    match c
    case '\"' => Found('\"', "")
    case '\\' => Found('\\', "")
    case '/' => Found('/', "")
    case 'b' => Found(0x08 as char, "")
    case 'f' => Found(0x0C as char, "")
    case 'n' => Found(0x0A as char, "")
    case 'r' => Found(0x0D as char, "")
    case 't' => Found(0x09 as char, "")
    case _ => Nothing
  }

  /** The character four hexadecimal digits stand for; surrogates stand for none by themselves. */
  function LongEscape(a: char, b: char, c: char, d: char): Read<char> {
    if Digit(a) < 0 || Digit(b) < 0 || Digit(c) < 0 || Digit(d) < 0 then Nothing
    else
      var code := ((Digit(a) * 16 + Digit(b)) * 16 + Digit(c)) * 16 + Digit(d);
      if 0 <= code < 0xD800 then Found(code as char, "") else Nothing
  }

  /** One character of a string, escaped or not; control characters must be escaped. */
  function ReadChar(s: string): (r: Read<char>)
    ensures r.Found? ==> |r.rest| < |s|
  {
    if s == [] || s[0] < ' ' || s[0] == '\"' then Nothing
    else if s[0] != '\\' then Found(s[0], s[1..])
    else if |s| < 2 then Nothing
    else if s[1] != 'u' then
      var short := ShortEscape(s[1]);
      if short.Found? then Found(short.value, s[2..]) else Nothing
    else if |s| < 6 then Nothing
    else
      var long := LongEscape(s[2], s[3], s[4], s[5]);
      if long.Found? then Found(long.value, s[6..]) else Nothing
  }

  /** The characters of a string up to its closing quote. */
  function ReadChars(s: string): (r: Read<string>)
    ensures r.Found? ==> |r.rest| < |s|
  {
    if s == [] then Nothing
    else if s[0] == '\"' then Found("", s[1..])
    else
      var c := ReadChar(s);
      if c.Nothing? then Nothing
      else
        var more := ReadChars(c.rest);
        if more.Nothing? then Nothing else Found([c.value] + more.value, more.rest)
  }

  lemma HexDigit(n: nat)
    requires n < 16
    ensures Digit(Hex(n)) == n
  {
    if n < 10 {
      assert Hex(n) == ('0' as int + n) as char;
    } else {
      assert Hex(n) == ('a' as int + (n - 10)) as char;
    }
  }

  /** An escaped character reads back as itself. */
  lemma ReadEscaped(c: char, x: string)
    ensures ReadChar(Escape(c) + x) == Found(c, x) && (Escape(c) + x)[0] != '\"'
  {
    EscapeShape(c);
    hide Escape, Digit, LongEscape, ShortEscape;
    var e := Escape(c);
    var s := e + x;
    assert s[|e|..] == x;
    assert forall k :: 0 <= k < |e| ==> s[k] == e[k];
  }

  /** An escape is one plain character, a short escape of two, or a long one of six. */
  lemma EscapeShape(c: char)
    ensures var e := Escape(c);
            || (e == [c] && c >= ' ' && c != '\"' && c != '\\')
            || (|e| == 2 && e[0] == '\\' && e[1] != 'u' && ShortEscape(e[1]) == Found(c, ""))
            || (|e| == 6 && e[0] == '\\' && e[1] == 'u' && LongEscape(e[2], e[3], e[4], e[5]) == Found(c, ""))
  {
    if |Escape(c)| == 6 {
      LongRead(c);
    }
  }

  /** No text that reads as a character is shorter than its escape, and escapes use lower-case digits. */
  lemma EscapeIsShortest(c: char, e: string, k: nat)
    requires ReadChar(e) == Found(c, "")
    ensures |Escape(c)| <= |e|
    ensures k < |Escape(c)| && 'A' <= Escape(c)[k] <= 'Z' ==> Escape(c) == [c]
  {
    hide Digit, LongEscape;
    if |Escape(c)| == 6 {
      HexIsLower(c as int / 16);
      HexIsLower(c as int % 16);
      assert Escape(c) == "\\u00" + [Hex(c as int / 16), Hex(c as int % 16)];
    }
  }

  lemma HexIsLower(n: nat)
    requires n < 16
    ensures !('A' <= Hex(n) <= 'Z')
  {
    HexDigit(n);
  }

  lemma LongRead(c: char)
    requires c < ' '
    ensures LongEscape('0', '0', Hex(c as int / 16), Hex(c as int % 16)) == Found(c, "")
  {
    HexDigit(c as int / 16);
    HexDigit(c as int % 16);
    hide Hex;
  }

  lemma {:induction false} ReadClosed(t: string, x: string)
    ensures ReadChars(Closed(t) + x) == Found(t, x)
    decreases |t|
  {
    hide Escape, ReadChar;
    if t == [] {
      assert (Closed(t) + x)[1..] == x;
    } else {
      Regroup(Escape(t[0]), Closed(t[1..]), x);
      ReadEscaped(t[0], Closed(t[1..]) + x);
      ReadClosed(t[1..], x);
      assert [t[0]] + t[1..] == t;
    }
  }

  // ---------------------------------------------------------------- reading values

  /** How many characters at the start of `s` can belong to a number. */
  function NumberLength(s: string): (n: nat)
    ensures n <= |s|
  {
    if s == [] || !NumberChar(s[0]) then 0 else 1 + NumberLength(s[1..])
  }

  /** A value at the start of a text, and what follows it. */
  function ReadValue(s: string): (r: Read<Json>)
    ensures r.Found? ==> |r.rest| < |s|
    decreases |s|, 0
  {
    if s == [] then Nothing
    else if s[0] == '[' then
      if |s| > 1 && s[1] == ']' then Found(Arr([]), s[2..])
      else
        var items := ReadItems(s[1..]);
        if items.Nothing? then Nothing else Found(Arr(items.value), items.rest)
    else if s[0] == '{' then
      if |s| > 1 && s[1] == '}' then Found(Obj([]), s[2..])
      else
        var members := ReadMembers(s[1..]);
        if members.Nothing? then Nothing else Found(Obj(members.value), members.rest)
    else ReadScalar(s)
  }

  /** A literal name, a number or a string. */
  function ReadScalar(s: string): (r: Read<Json>)
    ensures r.Found? ==> |r.rest| < |s|
  {
    if s == [] then Nothing
    else if s[0] == '\"' then
      var t := ReadChars(s[1..]);
      if t.Nothing? then Nothing else Found(Str(t.value), t.rest)
    else if NumberChar(s[0]) then Found(Number(s[..NumberLength(s)]), s[NumberLength(s)..])
    else if "null" <= s then Found(Null, s[4..])
    else if "true" <= s then Found(Bool(true), s[4..])
    else if "false" <= s then Found(Bool(false), s[5..])
    else Nothing
  }

  /** One or more values separated by commas, up to the closing bracket. */
  function ReadItems(s: string): (r: Read<seq<Json>>)
    ensures r.Found? ==> |r.rest| < |s|
    decreases |s|, 1
  {
    var v := ReadValue(s);
    if v.Nothing? || v.rest == [] then Nothing
    else if v.rest[0] == ']' then Found([v.value], v.rest[1..])
    else if v.rest[0] == ',' then
      var more := ReadItems(v.rest[1..]);
      if more.Nothing? then Nothing else Found([v.value] + more.value, more.rest)
    else Nothing
  }

  /** One or more members separated by commas, up to the closing brace. */
  function ReadMembers(s: string): (r: Read<seq<Member>>)
    ensures r.Found? ==> |r.rest| < |s|
    decreases |s|, 1
  {
    if s == [] || s[0] != '\"' then Nothing
    else
      var key := ReadChars(s[1..]);
      if key.Nothing? || key.rest == [] || key.rest[0] != ':' then Nothing
      else
        var v := ReadValue(key.rest[1..]);
        if v.Nothing? || v.rest == [] then Nothing
        else if v.rest[0] == '}' then Found([Member(key.value, v.value)], v.rest[1..])
        else if v.rest[0] == ',' then
          var more := ReadMembers(v.rest[1..]);
          if more.Nothing? then Nothing else Found([Member(key.value, v.value)] + more.value, more.rest)
        else Nothing
  }

  /** Nothing follows, or something that cannot continue a number. */
  predicate Ends(x: string) {
    x == [] || !NumberChar(x[0])
  }

  /** What the first character of a value's text tells. */
  predicate Starts(v: Json, c: char) {
    match v
    case Null => c == 'n'
    case Bool(flag) => c == if flag then 't' else 'f'
    case Number(_) => NumberChar(c)
    case Str(_) => c == '\"'
    case Arr(_) => c == '['
    case Obj(_) => c == '{'
  }

  lemma TextStarts(v: Json)
    requires WellFormed(v)
    ensures Text(v) != [] && Starts(v, Text(v)[0])
  {
  }

  lemma {:induction false} NumberEnds(text: string, x: string)
    requires (forall i :: 0 <= i < |text| ==> NumberChar(text[i])) && Ends(x)
    ensures NumberLength(text + x) == |text|
  {
    if text == [] {
      assert text + x == x;
    } else {
      assert (text + x)[1..] == text[1..] + x;
      NumberEnds(text[1..], x);
    }
  }

  lemma MoreItemsEnd(items: seq<Json>, x: string)
    ensures var s := MoreItems(items) + x;
            && s != [] && Ends(s) && s[0] == (if items == [] then ']' else ',')
            && s[1..] == if items == [] then x else Text(items[0]) + (MoreItems(items[1..]) + x)
  {
    if items != [] {
      var t, more := Text(items[0]), MoreItems(items[1..]);
      assert MoreItems(items) == "," + (t + more);
      hide Text, MoreItems;
      Regroup(",", t + more, x);
      Regroup(t, more, x);
      DropHead(',', t + (more + x));
    } else {
      DropHead(']', x);
    }
  }

  lemma MoreFieldsEnd(ms: seq<Member>, x: string)
    ensures var s := MoreFields(ms) + x;
            && s != [] && Ends(s) && s[0] == (if ms == [] then '}' else ',')
            && s[1..] == if ms == [] then x else Field(ms[0]) + (MoreFields(ms[1..]) + x)
  {
    if ms != [] {
      var t, more := Field(ms[0]), MoreFields(ms[1..]);
      assert MoreFields(ms) == "," + (t + more);
      hide Field, MoreFields;
      Regroup(",", t + more, x);
      Regroup(t, more, x);
      DropHead(',', t + (more + x));
    } else {
      DropHead('}', x);
    }
  }

  lemma DropHead(c: char, x: string)
    ensures ([c] + x)[0] == c && ([c] + x)[1..] == x
  {
  }

  // One step of the reader at a time.

  lemma ReadOneItem(s: string, v: Json, rest: string, more: seq<Json>, x: string)
    requires ReadValue(s) == Found(v, rest) && rest != []
    requires if more == [] then rest[0] == ']' && x == rest[1..]
             else rest[0] == ',' && ReadItems(rest[1..]) == Found(more, x)
    ensures ReadItems(s) == Found([v] + more, x)
  {
    assert more == [] ==> [v] + more == [v];
  }

  lemma ReadOneMember(s: string, key: string, after: string, v: Json, rest: string, more: seq<Member>, x: string)
    requires s != [] && s[0] == '\"' && ReadChars(s[1..]) == Found(key, after) && after != [] && after[0] == ':'
    requires ReadValue(after[1..]) == Found(v, rest) && rest != []
    requires if more == [] then rest[0] == '}' && x == rest[1..]
             else rest[0] == ',' && ReadMembers(rest[1..]) == Found(more, x)
    ensures ReadMembers(s) == Found([Member(key, v)] + more, x)
  {
    hide ReadChars;
    assert more == [] ==> [Member(key, v)] + more == [Member(key, v)];
  }

  lemma ReadArray(s: string, items: seq<Json>, x: string)
    requires |s| > 1 && s[0] == '[' && s[1] != ']' && ReadItems(s[1..]) == Found(items, x)
    ensures ReadValue(s) == Found(Arr(items), x)
  {
  }

  lemma ReadObject(s: string, ms: seq<Member>, x: string)
    requires |s| > 1 && s[0] == '{' && s[1] != '}' && ReadMembers(s[1..]) == Found(ms, x)
    ensures ReadValue(s) == Found(Obj(ms), x)
  {
  }

  lemma ReadNoBracket(s: string)
    requires s != [] && s[0] != '[' && s[0] != '{'
    ensures ReadValue(s) == ReadScalar(s)
  {
    hide ReadScalar;
  }

  lemma ReadScalarText(v: Json, x: string)
    requires WellFormed(v) && Ends(x) && !v.Arr? && !v.Obj?
    ensures ReadValue(Text(v) + x) == Found(v, x)
  {
    hide ReadValue, ReadChars, Closed, NumberLength;
    var s := Text(v) + x;
    TextStarts(v);
    assert s[0] == Text(v)[0];
    ReadNoBracket(s);
    match v
    case Null => assert s[4..] == x;
    case Bool(flag) => assert s[|Text(v)|..] == x;
    case Number(text) =>
      NumberEnds(text, x);
      assert s[..|text|] == text && s[|text|..] == x;
    case Str(text) =>
      ReadStringText(text, x);
  }

  lemma ReadStringText(text: string, x: string)
    ensures ReadScalar(Text(Str(text)) + x) == Found(Str(text), x)
  {
    assert Text(Str(text)) == "\"" + Closed(text);
    hide ReadChars, Closed, Text;
    Regroup("\"", Closed(text), x);
    DropHead('\"', Closed(text) + x);
    ReadClosed(text, x);
  }

  /** The text of a value reads back as the value, followed by anything that does not continue a number. */
  lemma {:induction false} ReadText(v: Json, x: string)
    requires WellFormed(v) && Ends(x)
    ensures ReadValue(Text(v) + x) == Found(v, x)
    decreases v
  {
    hide ReadValue, ReadItems, ReadMembers, Text, MoreItems, MoreFields, Field;
    if !v.Arr? && !v.Obj? {
      ReadScalarText(v, x);
    } else if v.Arr? {
      if v.items == [] {
        ReadEmptyArray(x);
      } else {
        ArrayParts(v.items, x);
        ReadItemsText(v.items, x);
        ReadArray(Text(v) + x, v.items, x);
      }
    } else {
      if v.members == [] {
        ReadEmptyObject(x);
      } else {
        ObjectParts(v.members, x);
        ReadMembersText(v.members, x);
        ReadObject(Text(v) + x, v.members, x);
      }
    }
  }

  lemma ReadEmptyArray(x: string)
    ensures ReadValue(Text(Arr([])) + x) == Found(Arr([]), x)
  {
    var s := Text(Arr([])) + x;
    assert s == "[]" + x && s[0] == '[' && s[1] == ']' && s[2..] == x;
  }

  lemma ReadEmptyObject(x: string)
    ensures ReadValue(Text(Obj([])) + x) == Found(Obj([]), x)
  {
    var s := Text(Obj([])) + x;
    assert s == "{}" + x && s[0] == '{' && s[1] == '}' && s[2..] == x;
  }

  lemma ArrayParts(items: seq<Json>, x: string)
    requires items != [] && WellFormed(items[0])
    ensures var s := Text(Arr(items)) + x;
            |s| > 1 && s[0] == '[' && s[1] != ']' && s[1..] == Text(items[0]) + (MoreItems(items[1..]) + x)
  {
    var t, more := Text(items[0]), MoreItems(items[1..]);
    TextStarts(items[0]);
    assert Text(Arr(items)) == "[" + (t + more);
    Regroup("[", t + more, x);
    Regroup(t, more, x);
    DropHead('[', t + (more + x));
  }

  lemma ObjectParts(ms: seq<Member>, x: string)
    requires ms != []
    ensures var s := Text(Obj(ms)) + x;
            |s| > 1 && s[0] == '{' && s[1] != '}' && s[1..] == Field(ms[0]) + (MoreFields(ms[1..]) + x)
  {
    var t, more := Field(ms[0]), MoreFields(ms[1..]);
    assert t[0] == '\"';
    assert Text(Obj(ms)) == "{" + (t + more);
    Regroup("{", t + more, x);
    Regroup(t, more, x);
    DropHead('{', t + (more + x));
  }

  lemma {:induction false} ReadItemsText(items: seq<Json>, x: string)
    requires items != [] && forall i :: 0 <= i < |items| ==> WellFormed(items[i])
    ensures ReadItems(Text(items[0]) + (MoreItems(items[1..]) + x)) == Found(items, x)
    decreases items
  {
    hide ReadValue, ReadItems, ReadMembers, Text, MoreItems;
    var rest := MoreItems(items[1..]) + x;
    MoreItemsEnd(items[1..], x);
    ReadText(items[0], rest);
    if |items| > 1 {
      ReadItemsText(items[1..], x);
    }
    ReadOneItem(Text(items[0]) + rest, items[0], rest, items[1..], x);
    assert items == [items[0]] + items[1..];
  }

  lemma {:induction false} ReadMembersText(ms: seq<Member>, x: string)
    requires ms != [] && forall i :: 0 <= i < |ms| ==> WellFormed(ms[i].value)
    ensures ReadMembers(Field(ms[0]) + (MoreFields(ms[1..]) + x)) == Found(ms, x)
    decreases ms
  {
    hide ReadValue, ReadItems, ReadMembers, ReadChars, Text, MoreFields, Field, Closed;
    var rest := MoreFields(ms[1..]) + x;
    var after := ":" + (Text(ms[0].value) + rest);
    MoreFieldsEnd(ms[1..], x);
    FieldParts(ms[0], rest);
    ReadClosed(ms[0].key, after);
    DropHead(':', Text(ms[0].value) + rest);
    ReadText(ms[0].value, rest);
    if |ms| > 1 {
      ReadMembersText(ms[1..], x);
    }
    ReadOneMember(Field(ms[0]) + rest, ms[0].key, after, ms[0].value, rest, ms[1..], x);
    assert ms == [ms[0]] + ms[1..];
  }

  lemma FieldParts(m: Member, x: string)
    ensures var s := Field(m) + x;
            s != [] && s[0] == '\"' && s[1..] == Closed(m.key) + (":" + (Text(m.value) + x))
  {
    var k, t := Closed(m.key), Text(m.value);
    assert Field(m) == ("\"" + k) + (":" + t);
    Regroup("\"" + k, ":" + t, x);
    Regroup("\"", k, (":" + t) + x);
    Regroup(":", t, x);
    DropHead('\"', k + (":" + (t + x)));
  }

  /** Different values print differently. */
  lemma TextInjective(a: Json, b: Json)
    requires WellFormed(a) && WellFormed(b) && Text(a) == Text(b)
    ensures a == b
  {
    assert Text(a) + [] == Text(a) && Text(b) + [] == Text(b);
    ReadText(a, []);
    ReadText(b, []);
  }
}

/** Storage keys of record identities (searchkernel/domain/models.py): `record:` followed by a JSON array, printed with
    `ensure_ascii=False` and no blanks, and accepted only in exactly that form. The JSON grammar is that of RFC 8259,
    sections 2, 5 and 7. */
module StorageKey {
  import opened Base

  datatype Identity = Identity(workspace: Option<string>, kind: string, id: string)
  {
    /** `_validate_identity_part`: no part may be empty, only the workspace may be missing. */
    predicate Valid() {
      workspace != Some("") && kind != "" && id != ""
    }
  }

  datatype KeyError = EmptyPart | MissingPrefix | Malformed | NotCanonical

  // ----- Printing -----

  function HexDigit(n: nat): char
    requires n < 16
  {
    if n < 10 then '0' + n as char else 'a' + (n - 10) as char
  }

  /** One character of a JSON string. */
  function Escape(c: char): (r: string)
    ensures r != []
  {
    if c == '\\' then ['\\', '\\']
    else if c == '"' then ['\\', '"']
    else if c == '\n' then ['\\', 'n']
    else if c == '\r' then ['\\', 'r']
    else if c == '\t' then ['\\', 't']
    else if c == '\U{8}' then ['\\', 'b']
    else if c == '\U{C}' then ['\\', 'f']
    else if c < ' ' then ['\\', 'u', '0', '0', HexDigit(c as int / 16), HexDigit(c as int % 16)]
    else [c]
  }

  function EscapeAll(s: string): string {
    if s == [] then [] else Escape(s[0]) + EscapeAll(s[1..])
  }

  function PrintString(s: string): string {
    ['"'] + EscapeAll(s) + ['"']
  }

  function PrintPart(part: Option<string>): string {
    if part.None? then "null" else PrintString(part.value)
  }

  function PrintKey(identity: Identity): string {
    "record:" + "[" + PrintPart(identity.workspace) + "," + PrintString(identity.kind) + ","
    + PrintString(identity.id) + "]"
  }

  // ----- Reading JSON -----

  function HexValue(c: char): (r: Option<nat>)
    ensures r.Some? ==> r.value < 16
  {
    if '0' <= c <= '9' then Some((c - '0') as int)
    else if 'a' <= c <= 'f' then Some((c - 'a') as int + 10)
    else if 'A' <= c <= 'F' then Some((c - 'A') as int + 10)
    else None
  }

  /** Four hexadecimal digits. */
  function ReadHex(s: string): (r: Option<nat>)
    ensures r.Some? ==> r.value < 0x10000 && |s| >= 4
  {
    if |s| < 4 || HexValue(s[0]).None? || HexValue(s[1]).None? || HexValue(s[2]).None? || HexValue(s[3]).None? then None
    else
      Some(HexValue(s[0]).value * 0x1000 + HexValue(s[1]).value * 0x100 + HexValue(s[2]).value * 0x10
           + HexValue(s[3]).value)
  }

  /** The escape behind `\u`, and for a surrogate the second half of its pair. A lone surrogate is not a character. */
  function ReadUnicode(s: string): (r: Option<(char, string)>)
    ensures r.Some? ==> |r.value.1| < |s|
  {
    var first := ReadHex(s);
    if first.None? then None
    else if first.value < 0xD800 || 0xE000 <= first.value then Some((first.value as char, s[4..]))
    else if first.value < 0xDC00 && |s| >= 6 && s[4] == '\\' && s[5] == 'u' then
      var second := ReadHex(s[6..]);
      if second.Some? && 0xDC00 <= second.value < 0xE000 then
        Some(((0x10000 + (first.value - 0xD800) * 0x400 + (second.value - 0xDC00)) as char, s[10..]))
      else None
    else None
  }

  /** What follows a backslash. */
  function ReadEscape(s: string): (r: Option<(char, string)>)
    ensures r.Some? ==> |r.value.1| < |s|
  {
    if s == [] then None
    else if s[0] == '"' then Some(('"', s[1..]))
    else if s[0] == '\\' then Some(('\\', s[1..]))
    else if s[0] == '/' then Some(('/', s[1..]))
    else if s[0] == 'b' then Some(('\U{8}', s[1..]))
    else if s[0] == 'f' then Some(('\U{C}', s[1..]))
    else if s[0] == 'n' then Some(('\n', s[1..]))
    else if s[0] == 'r' then Some(('\r', s[1..]))
    else if s[0] == 't' then Some(('\t', s[1..]))
    else if s[0] == 'u' then ReadUnicode(s[1..])
    else None
  }

  /** The rest of a string behind its opening quote, and what follows the closing one. */
  function ReadChars(s: string): (r: Option<(string, string)>)
    ensures r.Some? ==> |r.value.1| < |s|
    decreases |s|
  {
    if s == [] || s[0] < ' ' then None
    else if s[0] == '"' then Some(([], s[1..]))
    else if s[0] == '\\' then
      var one := ReadEscape(s[1..]);
      if one.None? then None
      else
        var more := ReadChars(one.value.1);
        if more.None? then None else Some(([one.value.0] + more.value.0, more.value.1))
    else
      var more := ReadChars(s[1..]);
      if more.None? then None else Some(([s[0]] + more.value.0, more.value.1))
  }

  function SkipBlanks(s: string): string {
    if s != [] && s[0] in {' ', '\t', '\n', '\r'} then SkipBlanks(s[1..]) else s
  }

  /** A value of the array: `null` or a string. Every other value ends in an error, here or in the identity's checks. */
  function ReadPart(s: string): Option<(Option<string>, string)> {
    if "null" <= s then Some((None, s[4..]))
    else if s != [] && s[0] == '"' then
      var text := ReadChars(s[1..]);
      if text.None? then None else Some((Some(text.value.0), text.value.1))
    else None
  }

  /** A value, then the given delimiter, with blanks around both. */
  function ReadPartThen(s: string, delimiter: char): Option<(Option<string>, string)> {
    var part := ReadPart(SkipBlanks(s));
    if part.None? then None
    else
      var rest := SkipBlanks(part.value.1);
      if rest != [] && rest[0] == delimiter then Some((part.value.0, rest[1..])) else None
  }

  /** `json.loads` of an array of exactly three values. */
  function ReadTriple(s: string): Option<(Option<string>, Option<string>, Option<string>)> {
    var open := SkipBlanks(s);
    if open == [] || open[0] != '[' then None
    else
      var first := ReadPartThen(open[1..], ',');
      if first.None? then None
      else
        var second := ReadPartThen(first.value.1, ',');
        if second.None? then None
        else
          var third := ReadPartThen(second.value.1, ']');
          if third.None? || SkipBlanks(third.value.1) != [] then None
          else Some((first.value.0, second.value.0, third.value.0))
  }

  /** `_parse_storage_key`: read the array, check the identity, and insist on the canonical form. */
  function ParseStorageKey(key: string): Result<Identity, KeyError> {
    if !("record:" <= key) then Err(MissingPrefix)
    else
      var parts := ReadTriple(key[7..]);
      if parts.None? || parts.value.1.None? || parts.value.2.None? then Err(Malformed)
      else
        var identity := Identity(parts.value.0, parts.value.1.value, parts.value.2.value);
        if !identity.Valid() then Err(EmptyPart)
        else if PrintKey(identity) != key then Err(NotCanonical)
        else Ok(identity)
  }

  // ----- Reading back what was printed -----

  lemma HexRoundTrip(n: nat)
    requires n < 16
    ensures HexValue(HexDigit(n)) == Some(n)
  {
  }

  lemma ControlRoundTrip(n: nat, rest: string)
    requires n < 0x20
    ensures ReadUnicode(['0', '0', HexDigit(n / 16), HexDigit(n % 16)] + rest) == Some((n as char, rest))
  {
    var digits := ['0', '0', HexDigit(n / 16), HexDigit(n % 16)] + rest;
    HexRoundTrip(n / 16);
    HexRoundTrip(n % 16);
    assert digits[0] == '0' && digits[1] == '0' && digits[2] == HexDigit(n / 16) && digits[3] == HexDigit(n % 16);
    assert HexValue('0') == Some(0);
    assert digits[4..] == rest;
  }

  /** An escaped character is read back whole, whatever follows it. */
  lemma EscapeRoundTrip(c: char, rest: string)
    ensures
      var printed := Escape(c) + rest;
      if printed[0] == '\\' then ReadEscape(printed[1..]) == Some((c, rest))
      else printed == [c] + rest && c != '"' && c >= ' '
  {
    var printed := Escape(c) + rest;
    if c < ' ' && |Escape(c)| == 6 {
      ControlRoundTrip(c as int, rest);
      assert printed[1..][1..] == ['0', '0', HexDigit(c as int / 16), HexDigit(c as int % 16)] + rest;
    } else if |Escape(c)| == 2 {
      assert printed[1..][1..] == rest;
    }
  }

  lemma {:induction false} StringRoundTrip(s: string, rest: string)
    ensures ReadChars(EscapeAll(s) + ['"'] + rest) == Some((s, rest))
  {
    if s == [] {
      var closing := EscapeAll(s) + ['"'] + rest;
      assert closing[0] == '"' && closing[1..] == rest;
    } else {
      var tail := EscapeAll(s[1..]) + ['"'] + rest;
      var printed := Escape(s[0]) + tail;
      assert EscapeAll(s) + ['"'] + rest == printed;
      EscapeRoundTrip(s[0], tail);
      StringRoundTrip(s[1..], rest);
      if printed[0] != '\\' {
        assert printed[1..] == tail;
      }
      assert s == [s[0]] + s[1..];
    }
  }

  lemma NullRoundTrip(rest: string)
    ensures SkipBlanks("null" + rest) == "null" + rest && ReadPart("null" + rest) == Some((None, rest))
  {
    var printed := "null" + rest;
    assert printed[0] == 'n' && printed[..4] == "null" && printed[4..] == rest;
  }

  lemma QuotedRoundTrip(text: string, rest: string)
    ensures SkipBlanks(PrintString(text) + rest) == PrintString(text) + rest
    ensures ReadPart(PrintString(text) + rest) == Some((Some(text), rest))
  {
    var printed := PrintString(text) + rest;
    var body := EscapeAll(text) + ['"'] + rest;
    assert printed == ['"'] + body;
    assert printed[0] == '"' && printed[1..] == body;
    assert "null"[0] == 'n';
    StringRoundTrip(text, rest);
  }

  lemma DelimiterIsRead(part: Option<string>, printed: string, delimiter: char, rest: string)
    requires delimiter == ',' || delimiter == ']'
    requires ReadPart(SkipBlanks(printed)) == Some((part, [delimiter] + rest))
    ensures ReadPartThen(printed, delimiter) == Some((part, rest))
  {
    var after := [delimiter] + rest;
    assert after[0] == delimiter && after[1..] == rest;
  }

  lemma PartRoundTrip(part: Option<string>, delimiter: char, rest: string)
    requires delimiter == ',' || delimiter == ']'
    ensures ReadPartThen(PrintPart(part) + [delimiter] + rest, delimiter) == Some((part, rest))
  {
    var after := [delimiter] + rest;
    assert PrintPart(part) + [delimiter] + rest == PrintPart(part) + after;
    if part.None? {
      NullRoundTrip(after);
    } else {
      QuotedRoundTrip(part.value, after);
    }
    DelimiterIsRead(part, PrintPart(part) + after, delimiter, rest);
  }

  lemma KeyLayout(identity: Identity) returns (first: string, second: string, third: string)
    ensures third == PrintPart(Some(identity.id)) + [']'] + []
    ensures second == PrintPart(Some(identity.kind)) + [','] + third
    ensures first == PrintPart(identity.workspace) + [','] + second
    ensures "record:" <= PrintKey(identity) && PrintKey(identity)[7..] == ['['] + first
  {
    third := PrintPart(Some(identity.id)) + [']'] + [];
    second := PrintPart(Some(identity.kind)) + [','] + third;
    first := PrintPart(identity.workspace) + [','] + second;
    assert PrintKey(identity) == "record:" + (['['] + first);
  }

  lemma TripleRoundTrip(identity: Identity)
    ensures "record:" <= PrintKey(identity)
    ensures ReadTriple(PrintKey(identity)[7..])
      == Some((identity.workspace, Some(identity.kind), Some(identity.id)))
  {
    var first, second, third := KeyLayout(identity);
    var list := PrintKey(identity)[7..];
    assert list[0] == '[' && list[1..] == first;
    PartRoundTrip(identity.workspace, ',', second);
    PartRoundTrip(Some(identity.kind), ',', third);
    PartRoundTrip(Some(identity.id), ']', []);
  }

  /** Parsing a printed identity returns it. */
  lemma KeyRoundTrip(identity: Identity)
    requires identity.Valid()
    ensures ParseStorageKey(PrintKey(identity)) == Ok(identity)
  {
    TripleRoundTrip(identity);
  }

  /** Identities with the same storage key are the same, whatever characters they are made of. */
  lemma KeysAreInjective(a: Identity, b: Identity)
    requires PrintKey(a) == PrintKey(b)
    ensures a == b
  {
    TripleRoundTrip(a);
    TripleRoundTrip(b);
  }

  /** The parser accepts exactly the keys that some valid identity prints. */
  lemma AcceptsExactlyPrintedKeys(key: string)
    ensures ParseStorageKey(key).Ok? <==> exists identity: Identity :: identity.Valid() && PrintKey(identity) == key
    ensures forall identity :: ParseStorageKey(key) == Ok(identity) <==> identity.Valid() && PrintKey(identity) == key
  {
    forall identity: Identity | identity.Valid() && PrintKey(identity) == key ensures ParseStorageKey(key) == Ok(identity) {
      KeyRoundTrip(identity);
    }
    if ParseStorageKey(key).Ok? {
      var identity := ParseStorageKey(key).value;
      assert identity.Valid() && PrintKey(identity) == key;
    }
  }
}

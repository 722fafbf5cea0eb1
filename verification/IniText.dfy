/** Lines of an INI file: trimming, the `sscanf` directives the parser uses, and the classification of
    one line (`iniparser_line`), in the C locale.  */
module IniText {
  predicate IsSpace(c: char) {
    c == ' ' || 9 <= c as int <= 13
  }

  function ToLower(c: char): char {
    if 'A' <= c <= 'Z' then c + ('a' - 'A') else c
  }

  function TrimLeft(s: string): (t: string)
    ensures t == "" || !IsSpace(t[0])
  {
    if s != "" && IsSpace(s[0]) then TrimLeft(s[1..]) else s
  }

  function TrimRight(s: string): (t: string)
    ensures t == "" || !IsSpace(t[|t| - 1])
    ensures t <= s
  {
    if s != "" && IsSpace(s[|s| - 1]) then TrimRight(s[..|s| - 1]) else s
  }

  /** `strstrip`. */
  function Strip(s: string): string {
    TrimRight(TrimLeft(s))
  }

  const ASCIILINESZ := 1024

  /** `strlwc`: lower case, cut to the static buffer. */
  function LowerCase(s: string): (t: string)
    ensures |t| == if |s| < ASCIILINESZ then |s| else ASCIILINESZ
    ensures forall i :: 0 <= i < |t| ==> t[i] == ToLower(s[i])
  {
    seq(if |s| < ASCIILINESZ then |s| else ASCIILINESZ, i requires 0 <= i < |s| => ToLower(s[i]))
  }

  predicate Stripped(s: string) {
    s == "" || (!IsSpace(s[0]) && !IsSpace(s[|s| - 1]))
  }

  // ----- sscanf, section 7.19.6.2 of ISO C99 -----

  /** `%[...]`, a white-space directive, or an ordinary character. */
  datatype Directive = Span(accept: char -> bool) | Blank | Lit(c: char)

  /** How many leading characters a scanset takes. */
  function RunLength(accept: char -> bool, s: string): (k: nat)
    ensures k <= |s|
    ensures forall i :: 0 <= i < k ==> accept(s[i])
    ensures k < |s| ==> !accept(s[k])
  {
    if s != "" && accept(s[0]) then 1 + RunLength(accept, s[1..]) else 0
  }

  /** The strings assigned before the first directive that fails. */
  function Scan(ds: seq<Directive>, s: string): (r: seq<string>)
    ensures |r| <= |ds|
    decreases |ds|
  {
    if ds == [] then []
    else match ds[0]
      case Blank => Scan(ds[1..], TrimLeft(s))
      case Lit(c) => if s != "" && s[0] == c then Scan(ds[1..], s[1..]) else []
      case Span(accept) =>
        var k := RunLength(accept, s);
        if k == 0 then [] else [s[..k]] + Scan(ds[1..], s[k..])
  }

  predicate NotEquals(c: char) {
    c != '='
  }

  predicate OnlyEquals(c: char) {
    c == '='
  }

  predicate NotDouble(c: char) {
    c != '"'
  }

  predicate NotSingle(c: char) {
    c != '\''
  }

  predicate NotComment(c: char) {
    c != ';' && c != '#'
  }

  predicate OnlyComment(c: char) {
    c == ';' || c == '#'
  }

  predicate NotBracket(c: char) {
    c != ']'
  }

  /** What may follow `%[^=] = ` */
  function Assign(tail: seq<Directive>): seq<Directive> {
    [Span(NotEquals), Blank, Lit('='), Blank] + tail
  }

  const SECTION: seq<Directive> := [Lit('['), Span(NotBracket)]
  const DOUBLE := Assign([Lit('"'), Span(NotDouble), Lit('"')])
  const SINGLE := Assign([Lit('\''), Span(NotSingle), Lit('\'')])
  const PLAIN := Assign([Span(NotComment)])
  const COMMENTED := Assign([Span(OnlyComment)])
  const BARE: seq<Directive> := [Span(NotEquals), Blank, Span(OnlyEquals)]

  // ----- one line -----

  datatype Line = Empty | Comment | Section(name: string) | Entry(key: string, value: string) | Error

  function Unquoted(v: string): string {
    if v == "\"\"" || v == "''" then "" else v
  }

  /** The first format that assigns two fields. */
  function KeyValue(line: string): seq<string> {
    if |Scan(DOUBLE, line)| == 2 then Scan(DOUBLE, line)
    else if |Scan(SINGLE, line)| == 2 then Scan(SINGLE, line)
    else if |Scan(PLAIN, line)| == 2 then Scan(PLAIN, line)
    else []
  }

  /** A key with nothing, or only a comment, behind its `=`. */
  function KeyOnly(line: string): seq<string> {
    if |Scan(COMMENTED, line)| == 2 then Scan(COMMENTED, line)
    else if |Scan(BARE, line)| == 2 then Scan(BARE, line)
    else []
  }

  /** What is neither blank, a comment nor a section. */
  function Assignment(line: string): Line {
    if |KeyValue(line)| == 2 then
      var r := KeyValue(line);
      Entry(LowerCase(Strip(r[0])), Unquoted(Strip(r[1])))
    else if |KeyOnly(line)| == 2 then
      Entry(LowerCase(Strip(KeyOnly(line)[0])), "")
    else Error
  }

  /** `iniparser_line`; `section` is what the section buffer still holds. */
  function ParseLine(input: string, section: string): Line {
    var line := Strip(input);
    if line == "" then Empty
    else if line[0] == '#' || line[0] == ';' then Comment
    else if line[0] == '[' && line[|line| - 1] == ']' then
      var r := Scan(SECTION, line);
      Section(LowerCase(Strip(if r == [] then section else r[0])))
    else Assignment(line)
  }

  // ----- lines the printer writes -----

  /** `%-30s` */
  function Pad(s: string): (t: string)
    ensures s <= t && |t| == if |s| < 30 then 30 else |s|
    ensures forall i :: |s| <= i < |t| ==> t[i] == ' '
    decreases 30 - |s|
  {
    if |s| < 30 then Pad(s + " ") else s
  }

  predicate SafeSection(s: string) {
    s != "" && Stripped(s) && LowerCase(s) == s && ']' !in s && '\n' !in s && ':' !in s && |s| <= 1020
  }

  predicate SafeKey(k: string) {
    k != "" && Stripped(k) && LowerCase(k) == k && '=' !in k && '\n' !in k &&
    k[0] != '[' && k[0] != '#' && k[0] != ';'
  }

  predicate SafeValue(v: string) {
    Stripped(v) && '\n' !in v && ';' !in v && '#' !in v &&
    (v != "" ==> v[0] != '"' && v[0] != '\'' && v[|v| - 1] != '\\')
  }

  lemma TrimLeftStripped(s: string)
    requires Stripped(s)
    ensures TrimLeft(s) == s && TrimRight(s) == s && Strip(s) == s
  {
  }

  lemma {:induction false} TrimRightSpaces(s: string, t: string)
    requires s == "" || !IsSpace(s[|s| - 1])
    requires forall i :: 0 <= i < |t| ==> IsSpace(t[i])
    ensures TrimRight(s + t) == s
    decreases |t|
  {
    if t == "" {
      assert s + t == s;
    } else {
      assert (s + t)[..|s + t| - 1] == s + t[..|t| - 1];
      TrimRightSpaces(s, t[..|t| - 1]);
    }
  }

  /** What a scanset takes is determined by where it first fails. */
  lemma {:induction false} RunUpTo(accept: char -> bool, s: string, t: string)
    requires forall i :: 0 <= i < |s| ==> accept(s[i])
    requires t == "" || !accept(t[0])
    ensures RunLength(accept, s + t) == |s|
  {
    if s == "" {
    } else {
      assert (s + t)[1..] == s[1..] + t;
      RunUpTo(accept, s[1..], t);
    }
  }

  /** A section line is read back as that section. */
  lemma SectionLine(sec: string, section: string)
    requires SafeSection(sec)
    ensures ParseLine("[" + sec + "]", section) == Section(sec)
  {
    var line := "[" + sec + "]";
    TrimLeftStripped(line);
    TrimLeftStripped(sec);
    assert line[1..] == sec + "]";
    RunUpTo(NotBracket, sec, "]");
    assert (sec + "]")[..|sec|] == sec;
    assert SECTION[1..] == [Span(NotBracket)];
    assert Scan(SECTION, line) == Scan([Span(NotBracket)], sec + "]");
    assert Scan([Span(NotBracket)], sec + "]")[0] == sec;
  }

  /** Every assignment format reads a printed entry up to its value the same way. */
  lemma AssignPrefix(key: string, tail: seq<Directive>, after: string)
    requires SafeKey(key)
    ensures Scan(Assign(tail), Pad(key) + " =" + after) == [Pad(key) + " "] + Scan(tail, TrimLeft(after))
  {
    var field, rest := Pad(key) + " ", "=" + after;
    var line := Pad(key) + " =" + after;
    assert line == field + rest;
    RunUpTo(NotEquals, field, rest);
    assert line[..|field|] == field && line[|field|..] == rest;
    var ds := Assign(tail);
    assert ds[1..] == [Blank, Lit('='), Blank] + tail;
    assert ds[1..][1..] == [Lit('='), Blank] + tail;
    assert ds[1..][1..][1..] == [Blank] + tail;
    assert ds[1..][1..][1..][1..] == tail;
    assert rest[1..] == after;
    assert Scan(ds[1..], rest) == Scan(ds[1..][1..], rest);
    assert Scan(ds[1..][1..], rest) == Scan(ds[1..][1..][1..], after);
  }

  /** A printed field is the key again once stripped. */
  lemma PaddedKey(key: string)
    requires SafeKey(key)
    ensures Strip(Pad(key) + " ") == key && LowerCase(key) == key
  {
    var field := Pad(key) + " ";
    var spaces := field[|key|..];
    assert field == key + spaces;
    TrimRightSpaces(key, spaces);
    assert TrimLeft(field) == field;
  }

  /** Only the plain format assigns both fields of an entry whose value starts with no quote. */
  lemma PlainEntry(key: string, value: string)
    requires SafeKey(key) && Stripped(value) && value != "" && value[0] != '"' && value[0] != '\''
    requires ';' !in value && '#' !in value
    ensures KeyValue(Pad(key) + " = " + value) == [Pad(key) + " ", value]
  {
    AfterEquals(key, value);
    RunUpTo(NotComment, value, "");
    assert value + "" == value;
    assert Scan([Span(NotComment)], value) == [value];
  }

  /** An entry with a value. */
  lemma FullEntryLine(key: string, value: string, section: string)
    requires SafeKey(key) && SafeValue(value) && value != ""
    ensures ParseLine(Pad(key) + " = " + value, section) == Entry(key, value)
  {
    PlainLine(key, value, section);
  }

  lemma FullEntryEnd(key: string, value: string)
    requires SafeValue(value) && value != ""
    ensures var line := Pad(key) + " = " + value;
      TrimRight(line) == line && line[|line| - 1] != '\\'
  {
  }

  /** An entry with an empty value, as it looks once its trailing blank is gone. */
  lemma EmptyEntryLine(key: string, section: string)
    requires SafeKey(key)
    ensures ParseLine(Pad(key) + " =", section) == Entry(key, "")
  {
    var line := Pad(key) + " =";
    assert line == Pad(key) + " =" + "";
    TrimLeftStripped(line);
    AssignPrefix(key, [Lit('"'), Span(NotDouble), Lit('"')], "");
    AssignPrefix(key, [Lit('\''), Span(NotSingle), Lit('\'')], "");
    AssignPrefix(key, [Span(NotComment)], "");
    AssignPrefix(key, [Span(OnlyComment)], "");
    BareEntry(key);
    PaddedKey(key);
  }

  lemma BareEntry(key: string)
    requires SafeKey(key)
    ensures Scan(BARE, Pad(key) + " =") == [Pad(key) + " ", "="]
  {
    var field := Pad(key) + " ";
    var line := Pad(key) + " =";
    assert line == field + "=";
    RunUpTo(NotEquals, field, "=");
    assert line[..|field|] == field && line[|field|..] == "=";
    assert BARE[1..] == [Blank, Span(OnlyEquals)] && BARE[1..][1..] == [Span(OnlyEquals)];
    RunUpTo(OnlyEquals, "=", "");
    assert "=" + "" == "=";
    assert Scan([Span(OnlyEquals)], "=") == ["="];
    assert Scan(BARE[1..], "=") == ["="];
  }

  /** Whatever safe value was printed, the line reads back as that entry. */
  lemma EntryLine(key: string, value: string, section: string)
    requires SafeKey(key) && SafeValue(value)
    ensures var line := TrimRight(Pad(key) + " = " + value);
      line != "" && line[|line| - 1] != '\\' && ParseLine(line, section) == Entry(key, value)
  {
    if value == "" {
      TrimRightSpaces(Pad(key) + " =", " ");
      assert Pad(key) + " = " + value == Pad(key) + " =" + " ";
      EmptyEntryLine(key, section);
    } else {
      FullEntryEnd(key, value);
      FullEntryLine(key, value, section);
    }
  }

  lemma {:induction false} FirstComment(v: string) returns (k: nat)
    requires ';' in v || '#' in v
    ensures k < |v| && !NotComment(v[k]) && forall i :: 0 <= i < k ==> NotComment(v[i])
  {
    if !NotComment(v[0]) {
      k := 0;
    } else {
      assert v == [v[0]] + v[1..];
      k := FirstComment(v[1..]);
      k := k + 1;
    }
  }

  /** An entry's value is no longer than the field its format assigned. */
  lemma ShortValue(line: string, section: string, n: nat)
    requires n > 0 && var r := KeyValue(Strip(line)); |r| == 2 ==> |r[1]| < n
    ensures ParseLine(line, section).Entry? ==> |ParseLine(line, section).value| < n
  {
    var r := KeyValue(Strip(line));
    if |r| == 2 {
      StripShrinks(r[1]);
    }
  }

  lemma PlainLine(key: string, value: string, section: string)
    requires SafeKey(key) && Stripped(value) && value != "" && value[0] != '"' && value[0] != '\''
    requires ';' !in value && '#' !in value
    ensures ParseLine(Pad(key) + " = " + value, section) == Entry(key, value)
  {
    TrimLeftStripped(Pad(key) + " = " + value);
    TrimLeftStripped(value);
    PlainEntry(key, value);
    PaddedKey(key);
  }

  /** Why values must be free of `;` and `#`: otherwise safe values read back right exactly then. */
  lemma CommentCharsExact(key: string, value: string, section: string)
    requires SafeKey(key) && Stripped(value) && value != "" && value[0] != '"' && value[0] != '\''
    ensures ParseLine(Pad(key) + " = " + value, section) == Entry(key, value) <==> ';' !in value && '#' !in value
  {
    if ';' !in value && '#' !in value {
      PlainLine(key, value, section);
    } else {
      var k := FirstComment(value);
      CutEntry(key, value, k, section);
    }
  }

  /** A comment character cuts the value short. */
  lemma CutEntry(key: string, value: string, k: nat, section: string)
    requires SafeKey(key) && Stripped(value) && value != "" && value[0] != '"' && value[0] != '\''
    requires k < |value| && !NotComment(value[k]) && forall i :: 0 <= i < k ==> NotComment(value[i])
    ensures ParseLine(Pad(key) + " = " + value, section) != Entry(key, value)
  {
    var line := Pad(key) + " = " + value;
    TrimLeftStripped(line);
    CutFields(key, value, k);
    ShortValue(line, section, |value|);
  }

  lemma CutFields(key: string, value: string, k: nat)
    requires SafeKey(key) && Stripped(value) && value != "" && value[0] != '"' && value[0] != '\''
    requires k < |value| && !NotComment(value[k]) && forall i :: 0 <= i < k ==> NotComment(value[i])
    ensures KeyValue(Pad(key) + " = " + value) == if k == 0 then [] else [Pad(key) + " ", value[..k]]
  {
    AfterEquals(key, value);
    RunUpTo(NotComment, value[..k], value[k..]);
    assert value[..k] + value[k..] == value;
    assert Scan([Span(NotComment)], value) == if k == 0 then [] else [value[..k]];
  }

  lemma StripShrinks(s: string)
    ensures |Strip(s)| <= |s|
  {
    TrimLeftShrinks(s);
  }

  lemma {:induction false} TrimLeftShrinks(s: string)
    ensures |TrimLeft(s)| <= |s|
  {
    if s != "" && IsSpace(s[0]) {
      TrimLeftShrinks(s[1..]);
    }
  }

  /** What the three assignment formats see of an entry with an unquoted value. */
  lemma AfterEquals(key: string, value: string)
    requires SafeKey(key) && Stripped(value) && value != "" && value[0] != '"' && value[0] != '\''
    ensures var line := Pad(key) + " = " + value;
      |Scan(DOUBLE, line)| == 1 && |Scan(SINGLE, line)| == 1 &&
      Scan(PLAIN, line) == [Pad(key) + " "] + Scan([Span(NotComment)], value)
  {
    var line := Pad(key) + " = " + value;
    assert line == Pad(key) + " =" + (" " + value);
    assert (" " + value)[1..] == value;
    assert TrimLeft(" " + value) == value;
    AssignPrefix(key, [Lit('"'), Span(NotDouble), Lit('"')], " " + value);
    AssignPrefix(key, [Lit('\''), Span(NotSingle), Lit('\'')], " " + value);
    AssignPrefix(key, [Span(NotComment)], " " + value);
  }
}

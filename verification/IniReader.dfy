/** How a line of an INI file reads, in plain terms: where its `=` is, where quotes open and close, where a
    comment begins.  The `sscanf` formats of the parser come to exactly this. */
module IniReader {
  import opened IniText

  /** What comes before the first of the given characters. */
  function Before(s: string, stops: set<char>): (r: string)
    ensures r <= s && forall i :: 0 <= i < |r| ==> r[i] !in stops
    ensures r == s || s[|r|] in stops
  {
    if s == "" || s[0] in stops then "" else [s[0]] + Before(s[1..], stops)
  }

  /** A quote opens, and something is in it. */
  predicate Opens(right: string, q: char) {
    |right| > 1 && right[0] == q && right[1] != q
  }

  /** The value behind `=` and blanks: up to the closing quote if a quote opens and something is in it, else
      up to a comment; a pair of quotes with nothing in it is empty. */
  function ReadValue(right: string): string {
    var text :=
      if Opens(right, '"') then Before(right[1..], {'"'})
      else if Opens(right, '\'') then Before(right[1..], {'\''})
      else Before(right, {';', '#'});
    if Strip(text) == "\"\"" || Strip(text) == "''" then "" else Strip(text)
  }

  function ReadEntry(line: string): Line {
    var left := Before(line, {'='});
    if left == "" || left == line then Error
    else Entry(LowerCase(Strip(left)), ReadValue(TrimLeft(line[|left| + 1..])))
  }

  function ReadLine(input: string, section: string): Line {
    var line := Strip(input);
    if line == "" then Empty
    else if line[0] == '#' || line[0] == ';' then Comment
    else if line[0] == '[' && line[|line| - 1] == ']' then
      var name := Before(line[1..], {']'});
      Section(LowerCase(Strip(if name == "" then section else name)))
    else ReadEntry(line)
  }

  // ----- the formats come to this -----

  lemma {:induction false} RunIsBefore(accept: char -> bool, s: string, stops: set<char>)
    requires forall c :: accept(c) <==> c !in stops
    ensures RunLength(accept, s) == |Before(s, stops)|
  {
    if s == "" || s[0] in stops {
    } else {
      RunIsBefore(accept, s[1..], stops);
    }
  }

  lemma SpanReads(accept: char -> bool, ds: seq<Directive>, s: string, stops: set<char>)
    requires forall c :: accept(c) <==> c !in stops
    ensures var r := Before(s, stops);
      Scan([Span(accept)] + ds, s) == if r == "" then [] else [r] + Scan(ds, s[|r|..])
  {
    var r := Before(s, stops);
    RunIsBefore(accept, s, stops);
    assert ([Span(accept)] + ds)[0] == Span(accept) && ([Span(accept)] + ds)[1..] == ds;
    assert s[..|r|] == r;
  }

  /** Every assignment format finds the key, then looks at what follows `=` and blanks. */
  lemma AssignReads(tail: seq<Directive>, line: string)
    ensures var left := Before(line, {'='});
      Scan(Assign(tail), line) ==
        if left == "" then [] else if left == line then [left]
        else [left] + Scan(tail, TrimLeft(line[|left| + 1..]))
  {
    var left, ds := Before(line, {'='}), Assign(tail);
    assert ds == [Span(NotEquals)] + ([Blank, Lit('='), Blank] + tail);
    SpanReads(NotEquals, [Blank, Lit('='), Blank] + tail, line, {'='});
    EqualsReads(tail, line[|left|..]);
    SuffixTail(line, |left|);
  }

  lemma SuffixTail(s: string, n: nat)
    requires n <= |s|
    ensures n < |s| ==> s[n..] != "" && s[n..][1..] == s[n + 1..]
    ensures n == |s| ==> s[n..] == ""
  {
  }

  lemma EqualsReads(tail: seq<Directive>, s: string)
    requires s == "" || s[0] == '='
    ensures Scan([Blank, Lit('='), Blank] + tail, s) == if s == "" then [] else Scan(tail, TrimLeft(s[1..]))
  {
    var ds := [Blank, Lit('='), Blank] + tail;
    assert ds[1..] == [Lit('='), Blank] + tail;
    assert ds[1..][1..] == [Blank] + tail;
    assert ds[1..][1..][1..] == tail;
    assert TrimLeft(s) == s;
    assert Scan(ds, s) == Scan(ds[1..], s);
    assert Scan(ds[1..], s) == if s == "" then [] else Scan(ds[1..][1..], s[1..]);
    assert s != "" ==> Scan(ds[1..][1..], s[1..]) == Scan(tail, TrimLeft(s[1..]));
  }

  /** A quoted format assigns what is between the quotes, if anything is. */
  lemma QuoteReads(q: char, accept: char -> bool, right: string)
    requires forall c :: accept(c) <==> c != q
    ensures Scan([Lit(q), Span(accept), Lit(q)], right) ==
      if Opens(right, q) then [Before(right[1..], {q})] else []
  {
    var ds := [Lit(q), Span(accept), Lit(q)];
    assert ds[1..] == [Span(accept)] + [Lit(q)];
    if right != "" && right[0] == q {
      SpanReads(accept, [Lit(q)], right[1..], {q});
    }
  }

  lemma PlainReads(accept: char -> bool, right: string, stops: set<char>)
    requires forall c :: accept(c) <==> c !in stops
    ensures Scan([Span(accept)], right) == if Before(right, stops) == "" then [] else [Before(right, stops)]
  {
    assert [Span(accept)] + [] == [Span(accept)];
    SpanReads(accept, [], right, stops);
  }

  /** What is behind `=` and blanks. */
  function Right(line: string): string
    requires Before(line, {'='}) != line
  {
    TrimLeft(line[|Before(line, {'='})| + 1..])
  }

  /** A format whose value is what `tail` assigns behind `=`. */
  lemma FormatReads(tail: seq<Directive>, line: string, value: seq<string>)
    requires Before(line, {'='}) != "" && Before(line, {'='}) != line && Scan(tail, Right(line)) == value
    ensures Scan(Assign(tail), line) == [Before(line, {'='})] + value
  {
    AssignReads(tail, line);
  }

  function Quoted(right: string, q: char): seq<string> {
    if Opens(right, q) then [Before(right[1..], {q})] else []
  }

  lemma DoubleReads(line: string)
    requires Before(line, {'='}) != "" && Before(line, {'='}) != line
    ensures Scan(DOUBLE, line) == [Before(line, {'='})] + Quoted(Right(line), '"')
  {
    QuoteReads('"', NotDouble, Right(line));
    FormatReads([Lit('"'), Span(NotDouble), Lit('"')], line, Quoted(Right(line), '"'));
  }

  lemma SingleReads(line: string)
    requires Before(line, {'='}) != "" && Before(line, {'='}) != line
    ensures Scan(SINGLE, line) == [Before(line, {'='})] + Quoted(Right(line), '\'')
  {
    QuoteReads('\'', NotSingle, Right(line));
    FormatReads([Lit('\''), Span(NotSingle), Lit('\'')], line, Quoted(Right(line), '\''));
  }

  lemma CommentReads(line: string)
    requires Before(line, {'='}) != "" && Before(line, {'='}) != line
    ensures var text := Before(Right(line), {';', '#'});
      Scan(PLAIN, line) == [Before(line, {'='})] + if text == "" then [] else [text]
  {
    var text := Before(Right(line), {';', '#'});
    PlainReads(NotComment, Right(line), {';', '#'});
    FormatReads([Span(NotComment)], line, if text == "" then [] else [text]);
  }

  /** The first format that assigns two fields, for a line with a key and `=`. */
  lemma KeyValueReads(line: string)
    requires Before(line, {'='}) != "" && Before(line, {'='}) != line
    ensures var left, right := Before(line, {'='}), Right(line);
      KeyValue(line) ==
        if Opens(right, '"') then [left, Before(right[1..], {'"'})]
        else if Opens(right, '\'') then [left, Before(right[1..], {'\''})]
        else if Before(right, {';', '#'}) != "" then [left, Before(right, {';', '#'})]
        else []
  {
    DoubleReads(line);
    SingleReads(line);
    CommentReads(line);
  }

  /** A line without key or `=` matches no format. */
  lemma NothingReads(line: string)
    requires var left := Before(line, {'='}); left == "" || left == line
    ensures |KeyValue(line)| != 2 && |KeyOnly(line)| != 2
  {
    AssignReads([Lit('"'), Span(NotDouble), Lit('"')], line);
    AssignReads([Lit('\''), Span(NotSingle), Lit('\'')], line);
    AssignReads([Span(NotComment)], line);
    AssignReads([Span(OnlyComment)], line);
    BareReads(line);
  }

  /** The last format assigns the key of any line that has one and `=`. */
  lemma BareReads(line: string)
    ensures var left := Before(line, {'='});
      (left == "" || left == line ==> |Scan(BARE, line)| != 2) &&
      (left != "" && left != line ==> |Scan(BARE, line)| == 2 && Scan(BARE, line)[0] == left)
  {
    var left := Before(line, {'='});
    assert BARE == [Span(NotEquals)] + [Blank, Span(OnlyEquals)];
    SpanReads(NotEquals, [Blank, Span(OnlyEquals)], line, {'='});
    var rest := line[|left|..];
    assert [Blank, Span(OnlyEquals)][1..] == [Span(OnlyEquals)];
    assert rest != "" ==> TrimLeft(rest) == rest;
    if rest != "" {
      assert RunLength(OnlyEquals, rest) > 0;
      assert [Span(OnlyEquals)][1..] == [];
    }
  }

  lemma KeyOnlyReads(line: string)
    requires var left := Before(line, {'='}); left != "" && left != line
    ensures |KeyOnly(line)| == 2 && KeyOnly(line)[0] == Before(line, {'='})
  {
    AssignReads([Span(OnlyComment)], line);
    BareReads(line);
  }

  lemma SectionReads(line: string)
    requires line != "" && line[0] == '['
    ensures Scan(SECTION, line) == if Before(line[1..], {']'}) == "" then [] else [Before(line[1..], {']'})]
  {
    assert SECTION[1..] == [Span(NotBracket)];
    PlainReads(NotBracket, line[1..], {']'});
  }

  lemma AssignmentReads(line: string)
    ensures Assignment(line) == ReadEntry(line)
  {
    if Before(line, {'='}) == "" || Before(line, {'='}) == line {
      NothingReads(line);
    } else {
      KeyValueReads(line);
      KeyOnlyReads(line);
    }
  }

  /** Every line, whatever is in it, reads as said above. */
  lemma ParseLineReads(input: string, section: string)
    ensures ParseLine(input, section) == ReadLine(input, section)
  {
    var line := Strip(input);
    if line != "" && line[0] == '[' {
      SectionReads(line);
    }
    AssignmentReads(line);
  }

  // ----- what that means for quotes and comments -----

  predicate Blanks(s: string) {
    forall i :: 0 <= i < |s| ==> IsSpace(s[i])
  }

  lemma {:induction false} BeforeIs(s: string, t: string, stops: set<char>)
    requires (forall i :: 0 <= i < |s| ==> s[i] !in stops) && (t == "" || t[0] in stops)
    ensures Before(s + t, stops) == s
  {
    if s == "" {
      assert s + t == t;
    } else {
      assert (s + t)[1..] == s[1..] + t;
      BeforeIs(s[1..], t, stops);
    }
  }

  /** Trimming at the end stops at the last text. */
  lemma {:induction false} TrimRightTail(x: string, t: string)
    requires TrimRight(t) != ""
    ensures TrimRight(x + t) == x + TrimRight(t)
    decreases |t|
  {
    if !IsSpace(t[|t| - 1]) {
      assert x + t == x + TrimRight(t);
    } else {
      assert (x + t)[..|x + t| - 1] == x + t[..|t| - 1];
      TrimRightTail(x, t[..|t| - 1]);
    }
  }

  lemma {:induction false} TrimLeftBlanks(a: string, s: string)
    requires Blanks(a) && (s == "" || !IsSpace(s[0]))
    ensures TrimLeft(a + s) == s
  {
    if a == "" {
      assert a + s == s;
    } else {
      assert (a + s)[1..] == a[1..] + s;
      TrimLeftBlanks(a[1..], s);
    }
  }

  /** A key, `=` and some text, with blanks around the `=`. */
  lemma KeyedLine(key: string, a: string, b: string, text: string, section: string)
    requires SafeKey(key) && Blanks(a) && Blanks(b) && text != "" && !IsSpace(text[0]) && TrimRight(text) != ""
    ensures ParseLine(key + a + "=" + b + text, section) == Entry(key, ReadValue(TrimRight(text)))
  {
    var front, line := key + a + "=" + b, key + a + "=" + b + text;
    var trimmed := TrimRight(text);
    TrimRightTail(front, text);
    assert TrimLeft(line) == line;
    assert Strip(line) == front + trimmed;
    KeyedReads(key, a, b, trimmed);
    ParseLineReads(line, section);
  }

  lemma KeyedReads(key: string, a: string, b: string, text: string)
    requires SafeKey(key) && Blanks(a) && Blanks(b) && (text == "" || !IsSpace(text[0]))
    ensures ReadEntry(key + a + "=" + b + text) == Entry(key, ReadValue(text))
  {
    EntryIs(key + a, b + text);
    TrimLeftBlanks(b, text);
    KeyStrips(key, a);
    Regroup(key + a, b, text);
  }

  lemma Regroup(x: string, b: string, text: string)
    ensures x + "=" + b + text == x + "=" + (b + text)
  {
  }

  lemma KeyStrips(key: string, a: string)
    requires SafeKey(key) && Blanks(a)
    ensures '=' !in key + a && key + a != "" && LowerCase(Strip(key + a)) == key
  {
    TrimRightSpaces(key, a);
    assert TrimLeft(key + a) == key + a;
  }

  lemma EntryIs(left: string, rest: string)
    requires left != "" && '=' !in left
    ensures ReadEntry(left + "=" + rest) == Entry(LowerCase(Strip(left)), ReadValue(TrimLeft(rest)))
  {
    var line := left + "=" + rest;
    assert line == left + ("=" + rest);
    BeforeIs(left, "=" + rest, {'='});
    assert line[|left| + 1..] == rest;
  }

  /** Between quotes anything goes, comment characters included; what follows the closing quote is dropped.
      (A pair of the other quotes between them reads as empty.) */
  lemma QuotedLine(key: string, a: string, b: string, q: char, v: string, tail: string, section: string)
    requires SafeKey(key) && Blanks(a) && Blanks(b) && (q == '"' || q == '\'') && v != "" && q !in v
    ensures ParseLine(key + a + "=" + b + ([q] + v + [q] + tail), section) ==
      Entry(key, if Strip(v) == "\"\"" || Strip(v) == "''" then "" else Strip(v))
  {
    var text := [q] + v + [q] + tail;
    QuoteStays(q, tail);
    var rest := TrimRight([q] + tail);
    assert text == [q] + v + ([q] + tail);
    TrimRightTail([q] + v, [q] + tail);
    var right := [q] + v + rest;
    assert right[1..] == v + rest && right[1] == v[0];
    BeforeIs(v, rest, {q});
    KeyedLine(key, a, b, text, section);
  }

  lemma {:induction false} QuoteStays(c: char, tail: string)
    requires !IsSpace(c)
    ensures TrimRight([c] + tail) != "" && TrimRight([c] + tail)[0] == c
    decreases |tail|
  {
    if tail == "" {
      assert [c] + tail == [c];
    } else if IsSpace(tail[|tail| - 1]) {
      assert ([c] + tail)[..|tail|] == [c] + tail[..|tail| - 1];
      QuoteStays(c, tail[..|tail| - 1]);
    }
  }

  /** A comment character ends an unquoted value. */
  lemma CommentedLine(key: string, a: string, b: string, v: string, c: char, tail: string, section: string)
    requires SafeKey(key) && Blanks(a) && Blanks(b) && (c == ';' || c == '#') && ';' !in v && '#' !in v
    requires v != "" ==> !IsSpace(v[0]) && v[0] != '"' && v[0] != '\''
    ensures ParseLine(key + a + "=" + b + (v + [c] + tail), section) == Entry(key, Strip(v))
  {
    var text := v + [c] + tail;
    QuoteStays(c, tail);
    var rest := TrimRight([c] + tail);
    assert text == v + ([c] + tail);
    TrimRightTail(v, [c] + tail);
    BeforeIs(v, rest, {';', '#'});
    TrimKeepsFirst(v);
    KeyedLine(key, a, b, text, section);
  }

  lemma TrimKeepsFirst(v: string)
    requires v != "" ==> !IsSpace(v[0])
    ensures Strip(v) == TrimRight(v) && (v != "" ==> Strip(v) != "" && Strip(v)[0] == v[0])
  {
    if v != "" {
      assert v == [v[0]] + v[1..];
      QuoteStays(v[0], v[1..]);
    }
  }

  /** Two quotes with nothing between them, alone or before a comment, are the empty value. */
  lemma EmptyQuotesLine(key: string, a: string, b: string, q: char, gap: string, rest: string, section: string)
    requires SafeKey(key) && Blanks(a) && Blanks(b) && (q == '"' || q == '\'') && Blanks(gap)
    requires rest == "" || rest[0] == ';' || rest[0] == '#'
    ensures ParseLine(key + a + "=" + b + ([q, q] + gap + rest), section) == Entry(key, "")
  {
    if rest == "" {
      EmptyQuotesAlone(q, gap);
      assert [q, q] + gap + rest == [q, q] + gap;
    } else {
      EmptyQuotesCut(q, gap, rest);
    }
    KeyedLine(key, a, b, [q, q] + gap + rest, section);
  }

  lemma EmptyQuotesAlone(q: char, gap: string)
    requires (q == '"' || q == '\'') && Blanks(gap)
    ensures TrimRight([q, q] + gap) == [q, q] && ReadValue([q, q]) == ""
  {
    TrimRightSpaces([q, q], gap);
    EmptyQuotesRead(q, "", "");
    assert [q, q] + "" + "" == [q, q];
  }

  lemma EmptyQuotesRead(q: char, gap: string, rest: string)
    requires (q == '"' || q == '\'') && Blanks(gap)
    requires rest == "" || rest[0] == ';' || rest[0] == '#'
    ensures ReadValue([q, q] + gap + rest) == ""
  {
    BeforeIs([q, q] + gap, rest, {';', '#'});
    TrimRightSpaces([q, q], gap);
    assert TrimLeft([q, q] + gap) == [q, q] + gap;
  }

  lemma EmptyQuotesCut(q: char, gap: string, rest: string)
    requires (q == '"' || q == '\'') && Blanks(gap)
    requires rest != "" && (rest[0] == ';' || rest[0] == '#')
    ensures TrimRight([q, q] + gap + rest) != "" && ReadValue(TrimRight([q, q] + gap + rest)) == ""
  {
    assert rest == [rest[0]] + rest[1..];
    QuoteStays(rest[0], rest[1..]);
    TrimRightTail([q, q] + gap, rest);
    EmptyQuotesRead(q, gap, TrimRight(rest));
  }

  /** An unquoted value without comment characters reads as it stands, whatever the blanks around `=`. */
  lemma PlainValueLine(key: string, a: string, b: string, v: string, section: string)
    requires SafeKey(key) && Blanks(a) && Blanks(b) && SafeValue(v) && v != ""
    ensures ParseLine(key + a + "=" + b + v, section) == Entry(key, v)
  {
    TrimLeftStripped(v);
    assert v + "" == v;
    BeforeIs(v, "", {';', '#'});
    KeyedLine(key, a, b, v, section);
  }

  /** Nothing behind `=` is the empty value. */
  lemma NoValueLine(key: string, a: string, section: string)
    requires SafeKey(key) && Blanks(a)
    ensures ParseLine(key + a + "=", section) == Entry(key, "")
  {
    var line := key + a + "=";
    assert line == key + a + "=" + "" + "";
    assert Strip(line) == line;
    KeyedReads(key, a, "", "");
    ParseLineReads(line, section);
  }

  /** A line that is no comment and no section is an error exactly if it has no `=` or nothing before it. */
  lemma ErrorExact(input: string, section: string)
    requires var line := Strip(input);
      line != "" && line[0] != '#' && line[0] != ';' && !(line[0] == '[' && line[|line| - 1] == ']')
    ensures ParseLine(input, section).Error? <==> '=' !in Strip(input) || Strip(input)[0] == '='
  {
    ParseLineReads(input, section);
    var line := Strip(input);
    var left := Before(line, {'='});
    if left != line {
      assert line[|left|] == '=';
    }
  }
}

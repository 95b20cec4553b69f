/** The shell's splitter for JSON arguments: it cuts each value at its closing
    bracket while counting brackets of one kind only. */
module JsonScanner {

  /** The characters that ECMAScript's `trim` removes. */
  predicate IsSpace(c: char) {
    c == ' ' || '\t' <= c <= '\r' || c == '\U{00A0}' || c == '\U{1680}' || '\U{2000}' <= c <= '\U{200A}' ||
    c == '\U{2028}' || c == '\U{2029}' || c == '\U{202F}' || c == '\U{205F}' || c == '\U{3000}' || c == '\U{FEFF}'
  }

  predicate AllSpace(s: string) {
    forall i :: 0 <= i < |s| ==> IsSpace(s[i])
  }

  function TrimStart(s: string): string {
    if |s| > 0 && IsSpace(s[0]) then TrimStart(s[1..]) else s
  }

  function TrimEnd(s: string): string {
    if |s| > 0 && IsSpace(s[|s| - 1]) then TrimEnd(s[..|s| - 1]) else s
  }

  function Trim(s: string): string {
    TrimEnd(TrimStart(s))
  }

  // ----------------------------------------------------------------- scanner

  /** The scanner between two characters. */
  datatype Scan = Scan(depth: int, quoted: bool, escaped: bool)

  function Closing(opening: char): char {
    if opening == '{' then '}' else ']'
  }

  function Next(st: Scan, c: char, opening: char): Scan {
    if st.quoted then
      if st.escaped then st.(escaped := false)
      else if c == '\\' then st.(escaped := true)
      else if c == '"' then st.(quoted := false)
      else st
    else if c == '"' then st.(quoted := true)
    else if c == opening then st.(depth := st.depth + 1)
    else if c == Closing(opening) then st.(depth := st.depth - 1)
    else st
  }

  /** This character ends the value. */
  predicate Ends(st: Scan, c: char, opening: char) {
    !st.quoted && c != '"' && c != opening && c == Closing(opening) && st.depth == 1
  }

  /** Length of the value that `text` goes on with, or -1 when it does not end. */
  function EndFrom(text: string, st: Scan, opening: char): int {
    if |text| == 0 then -1
    else if Ends(st, text[0], opening) then 1
    else
      var e := EndFrom(text[1..], Next(st, text[0], opening), opening);
      if e < 0 then -1 else e + 1
  }

  datatype Outcome = Ok(values: seq<string>, rest: string) | ValueRequired | Incomplete

  predicate Opens(rest: string) {
    |rest| > 0 && (rest[0] == '{' || rest[0] == '[')
  }

  /** The values cut off a trimmed text, and what is left. */
  function Values(rest: string, count: nat): Outcome
    decreases count
  {
    if count == 0 then Ok([], rest)
    else if !Opens(rest) then ValueRequired
    else
      var end := EndFrom(rest, Scan(0, false, false), rest[0]);
      if end < 0 || end > |rest| then Incomplete
      else Prepend([rest[..end]], Values(Trim(rest[end..]), count - 1))
  }

  function Prepend(values: seq<string>, o: Outcome): Outcome {
    if o.Ok? then o.(values := values + o.values) else o
  }

  lemma {:induction false} EndInRange(text: string, st: Scan, opening: char)
    ensures -1 <= EndFrom(text, st, opening) <= |text|
    ensures EndFrom(text, st, opening) != 0
  {
    if |text| > 0 && !Ends(st, text[0], opening) {
      EndInRange(text[1..], Next(st, text[0], opening), opening);
    }
  }

  /** The inner loop: one pass over the rest with three flags. */
  method FindEnd(rest: string, opening: char) returns (end: int)
    requires opening == '{' || opening == '['
    ensures end == EndFrom(rest, Scan(0, false, false), opening)
  {
    var closing := if opening == '{' then '}' else ']';
    var depth, quoted, escaped := 0, false, false;
    end := -1;
    var i := 0;
    assert rest[0..] == rest;
    while i < |rest|
      invariant 0 <= i <= |rest| && end == -1
      invariant var e := EndFrom(rest[i..], Scan(depth, quoted, escaped), opening);
                EndFrom(rest, Scan(0, false, false), opening) == if e < 0 then -1 else e + i
    {
      EndInRange(rest[i..], Scan(depth, quoted, escaped), opening);
      assert rest[i..][1..] == rest[i + 1..];
      EndInRange(rest[i + 1..], Next(Scan(depth, quoted, escaped), rest[i], opening), opening);
      var c := rest[i];
      if quoted {
        if escaped {
          escaped := false;
        } else if c == '\\' {
          escaped := true;
        } else if c == '"' {
          quoted := false;
        }
      } else if c == '"' {
        quoted := true;
      } else if c == opening {
        depth := depth + 1;
      } else if c == closing {
        depth := depth - 1;
        if depth == 0 {
          end := i + 1;
          return;
        }
      }
      i := i + 1;
    }
  }

  method JsonValues(text: string, count: nat) returns (r: Outcome)
    ensures r == Values(Trim(text), count)
  {
    hide Trim, EndFrom;
    var values: seq<string> := [];
    var rest := Trim(text);
    var n := 0;
    while n < count
      invariant 0 <= n <= count
      invariant Values(Trim(text), count) == Prepend(values, Values(rest, count - n))
    {
      if |rest| == 0 || (rest[0] != '{' && rest[0] != '[') {
        return ValueRequired;
      }
      var end := FindEnd(rest, rest[0]);
      EndInRange(rest, Scan(0, false, false), rest[0]);
      if end < 0 {
        return Incomplete;
      }
      ghost var later := Values(Trim(rest[end..]), count - n - 1);
      assert later.Ok? ==> values + ([rest[..end]] + later.values) == (values + [rest[..end]]) + later.values;
      values := values + [rest[..end]];
      rest := Trim(rest[end..]);
      n := n + 1;
    }
    return Ok(values, rest);
  }

  // --------------------------------------------------------------- JSON text

  /** One element of a string body: a plain character, or a backslash and what it
      escapes. (A `\\u` escape is the pair and four plain characters.) */
  datatype Unit = Raw(c: char) | Escape(c: char)

  /** JSON texts by sections 2, 4, 5 and 7 of RFC 8259, with the white space they
      were written with. `Word` covers numbers and the three literal names. */
  datatype Json =
    | Word(text: string)
    | Str(units: seq<Unit>)
    | Array(gap: string, items: seq<Item>)
    | Object(gap: string, members: seq<Member>)

  datatype Item = Item(before: string, value: Json, after: string)

  datatype Member = Member(before: string, key: seq<Unit>, between: string, item: Item)

  /** No brackets and no quotes, as in white space, numbers and literal names. */
  predicate Inert(s: string) {
    forall i :: 0 <= i < |s| ==> s[i] !in ['{', '}', '[', ']', '"']
  }

  predicate UnitsOk(us: seq<Unit>) {
    forall i :: 0 <= i < |us| ==> us[i].Raw? ==> us[i].c != '"' && us[i].c != '\\'
  }

  predicate JsonOk(v: Json) {
    match v
    case Word(text) => Inert(text)
    case Str(units) => UnitsOk(units)
    case Array(gap, items) => Inert(gap) && forall i :: 0 <= i < |items| ==> ItemOk(items[i])
    case Object(gap, members) => Inert(gap) && forall i :: 0 <= i < |members| ==> MemberOk(members[i])
  }

  predicate ItemOk(x: Item) {
    Inert(x.before) && JsonOk(x.value) && Inert(x.after)
  }

  predicate MemberOk(m: Member) {
    Inert(m.before) && UnitsOk(m.key) && Inert(m.between) && ItemOk(m.item)
  }

  function PrintUnits(us: seq<Unit>): string {
    if |us| == 0 then ""
    else PrintUnits(us[..|us| - 1]) + (if us[|us| - 1].Raw? then [us[|us| - 1].c] else ['\\', us[|us| - 1].c])
  }

  function Quoted(us: seq<Unit>): string {
    ['"'] + PrintUnits(us) + ['"']
  }

  function Print(v: Json): string
    decreases v, 1
  {
    match v
    case Word(text) => text
    case Str(units) => Quoted(units)
    case Array(gap, items) => ['['] + (if |items| == 0 then gap else PrintItems(v, |items|)) + [']']
    case Object(gap, members) => ['{'] + (if |members| == 0 then gap else PrintMembers(v, |members|)) + ['}']
  }

  /** The first `n` items of an array, separated by commas. */
  function PrintItems(v: Json, n: nat): string
    requires v.Array? && n <= |v.items|
    decreases v, 0, n
  {
    if n == 0 then ""
    else PrintItems(v, n - 1) + (if n == 1 then "" else ",") + PrintItem(v.items[n - 1])
  }

  function PrintMembers(v: Json, n: nat): string
    requires v.Object? && n <= |v.members|
    decreases v, 0, n
  {
    if n == 0 then ""
    else PrintMembers(v, n - 1) + (if n == 1 then "" else ",") + PrintMember(v.members[n - 1])
  }

  function PrintItem(x: Item): string
    decreases x, 0
  {
    x.before + Print(x.value) + x.after
  }

  function PrintMember(m: Member): string
    decreases m, 0
  {
    m.before + Quoted(m.key) + m.between + ":" + PrintItem(m.item)
  }

  // -------------------------------------------------------------- scanning it

  /** Reading `text` from state `st` leads to `st'` without ending the value. */
  predicate Reads(text: string, st: Scan, st': Scan, opening: char)
    decreases |text|
  {
    if |text| == 0 then st == st'
    else !Ends(st, text[0], opening) && Reads(text[1..], Next(st, text[0], opening), st', opening)
  }

  lemma {:induction false} ReadsConcat(a: string, b: string, st: Scan, mid: Scan, st': Scan, opening: char)
    requires Reads(a, st, mid, opening) && Reads(b, mid, st', opening)
    ensures Reads(a + b, st, st', opening)
    decreases |a|
  {
    if |a| == 0 {
      assert a + b == b;
    } else {
      assert (a + b)[1..] == a[1..] + b;
      ReadsConcat(a[1..], b, Next(st, a[0], opening), mid, st', opening);
    }
  }

  lemma {:induction false} ReadsInert(s: string, st: Scan, opening: char)
    requires Inert(s) && !st.quoted && (opening == '{' || opening == '[')
    ensures Reads(s, st, st, opening)
  {
    if |s| > 0 {
      ReadsInert(s[1..], st, opening);
    }
  }

  lemma {:induction false} ReadsUnits(us: seq<Unit>, st: Scan, opening: char)
    requires UnitsOk(us) && st.quoted && !st.escaped
    ensures Reads(PrintUnits(us), st, st, opening)
  {
    if |us| > 0 {
      var n := |us| - 1;
      ReadsUnits(us[..n], st, opening);
      var last := if us[n].Raw? then [us[n].c] else ['\\', us[n].c];
      assert us[n].Escape? ==> last[1..] == [us[n].c];
      assert Reads(last, st, st, opening);
      ReadsConcat(PrintUnits(us[..n]), last, st, st, st, opening);
    }
  }

  lemma ReadsQuoted(us: seq<Unit>, st: Scan, opening: char)
    requires UnitsOk(us) && !st.quoted && !st.escaped && (opening == '{' || opening == '[')
    ensures Reads(Quoted(us), st, st, opening)
  {
    var inside := st.(quoted := true);
    ReadsUnits(us, inside, opening);
    assert Reads(['"'], st, inside, opening);
    assert Reads(['"'], inside, st, opening);
    ReadsConcat(['"'], PrintUnits(us), st, inside, inside, opening);
    ReadsConcat(['"'] + PrintUnits(us), ['"'], st, inside, st, opening);
  }

  /** Inside a value being scanned: some bracket is open, no string is. */
  predicate Inside(st: Scan, opening: char) {
    st.depth >= 1 && !st.quoted && !st.escaped && (opening == '{' || opening == '[')
  }

  /** A complete value inside the scanned one is passed over unchanged, whatever
      brackets and quotes it holds. */
  lemma {:induction false} ReadsJson(v: Json, st: Scan, opening: char)
    requires JsonOk(v) && Inside(st, opening)
    ensures Reads(Print(v), st, st, opening)
    decreases v, 1
  {
    match v {
      case Word(text) => ReadsInert(text, st, opening);
      case Str(units) => ReadsQuoted(units, st, opening);
      case Array(gap, items) =>
        var inner := if opening == '[' then st.(depth := st.depth + 1) else st;
        ReadsBody(v, inner, opening);
        var body := if |items| == 0 then gap else PrintItems(v, |items|);
        ReadsBracketed(['['], body, [']'], st, inner, opening);
      case Object(gap, members) =>
        var inner := if opening == '{' then st.(depth := st.depth + 1) else st;
        ReadsBody(v, inner, opening);
        var body := if |members| == 0 then gap else PrintMembers(v, |members|);
        ReadsBracketed(['{'], body, ['}'], st, inner, opening);
    }
  }

  lemma ReadsBracketed(open: string, body: string, close: string, st: Scan, inner: Scan, opening: char)
    requires Reads(open, st, inner, opening) && Reads(body, inner, inner, opening) && Reads(close, inner, st, opening)
    ensures Reads(open + body + close, st, st, opening)
  {
    ReadsConcat(open, body, st, inner, inner, opening);
    ReadsConcat(open + body, close, st, inner, st, opening);
  }

  lemma {:induction false} ReadsBody(v: Json, st: Scan, opening: char)
    requires JsonOk(v) && Inside(st, opening) && (v.Array? || v.Object?)
    ensures v.Array? ==> Reads(if |v.items| == 0 then v.gap else PrintItems(v, |v.items|), st, st, opening)
    ensures v.Object? ==> Reads(if |v.members| == 0 then v.gap else PrintMembers(v, |v.members|), st, st, opening)
    decreases v, 0
  {
    if v.Array? {
      if |v.items| == 0 {
        ReadsInert(v.gap, st, opening);
      } else {
        ReadsItems(v, |v.items|, st, opening);
      }
    } else {
      if |v.members| == 0 {
        ReadsInert(v.gap, st, opening);
      } else {
        ReadsMembers(v, |v.members|, st, opening);
      }
    }
  }

  lemma {:induction false} ReadsItem(x: Item, st: Scan, opening: char)
    requires ItemOk(x) && Inside(st, opening)
    ensures Reads(PrintItem(x), st, st, opening)
    decreases x, 0
  {
    ReadsInert(x.before, st, opening);
    ReadsJson(x.value, st, opening);
    ReadsInert(x.after, st, opening);
    ReadsConcat(x.before, Print(x.value), st, st, st, opening);
    ReadsConcat(x.before + Print(x.value), x.after, st, st, st, opening);
  }

  lemma {:induction false} ReadsMember(m: Member, st: Scan, opening: char)
    requires MemberOk(m) && Inside(st, opening)
    ensures Reads(PrintMember(m), st, st, opening)
    decreases m, 0
  {
    ReadsInert(m.before, st, opening);
    ReadsQuoted(m.key, st, opening);
    ReadsInert(m.between, st, opening);
    ReadsInert(":", st, opening);
    ReadsItem(m.item, st, opening);
    ReadsConcat(m.before, Quoted(m.key), st, st, st, opening);
    ReadsConcat(m.before + Quoted(m.key), m.between, st, st, st, opening);
    ReadsConcat(m.before + Quoted(m.key) + m.between, ":", st, st, st, opening);
    ReadsConcat(m.before + Quoted(m.key) + m.between + ":", PrintItem(m.item), st, st, st, opening);
  }

  lemma {:induction false} ReadsItems(v: Json, n: nat, st: Scan, opening: char)
    requires v.Array? && JsonOk(v) && n <= |v.items| && Inside(st, opening)
    ensures Reads(PrintItems(v, n), st, st, opening)
    decreases v, 0, n
  {
    if n > 0 {
      ReadsItems(v, n - 1, st, opening);
      var comma := if n == 1 then "" else ",";
      ReadsInert(comma, st, opening);
      ReadsItem(v.items[n - 1], st, opening);
      ReadsConcat(PrintItems(v, n - 1), comma, st, st, st, opening);
      ReadsConcat(PrintItems(v, n - 1) + comma, PrintItem(v.items[n - 1]), st, st, st, opening);
    }
  }

  lemma {:induction false} ReadsMembers(v: Json, n: nat, st: Scan, opening: char)
    requires v.Object? && JsonOk(v) && n <= |v.members| && Inside(st, opening)
    ensures Reads(PrintMembers(v, n), st, st, opening)
    decreases v, 0, n
  {
    if n > 0 {
      ReadsMembers(v, n - 1, st, opening);
      var comma := if n == 1 then "" else ",";
      ReadsInert(comma, st, opening);
      ReadsMember(v.members[n - 1], st, opening);
      ReadsConcat(PrintMembers(v, n - 1), comma, st, st, st, opening);
      ReadsConcat(PrintMembers(v, n - 1) + comma, PrintMember(v.members[n - 1]), st, st, st, opening);
    }
  }

  lemma {:induction false} EndAfter(a: string, b: string, st: Scan, mid: Scan, opening: char)
    requires Reads(a, st, mid, opening)
    ensures EndFrom(a + b, st, opening) == (var e := EndFrom(b, mid, opening); if e < 0 then -1 else |a| + e)
    decreases |a|
  {
    EndInRange(b, mid, opening);
    if |a| == 0 {
      assert a + b == b;
    } else {
      assert (a + b)[1..] == a[1..] + b;
      EndAfter(a[1..], b, Next(st, a[0], opening), mid, opening);
    }
  }

  // ------------------------------------------------------------ main results

  predicate Composite(v: Json) {
    JsonOk(v) && (v.Array? || v.Object?)
  }

  /** What a composite value prints between its brackets. */
  function Body(v: Json): string
    requires v.Array? || v.Object?
  {
    if v.Array? then (if |v.items| == 0 then v.gap else PrintItems(v, |v.items|))
    else (if |v.members| == 0 then v.gap else PrintMembers(v, |v.members|))
  }

  function Bracket(v: Json): char {
    if v.Array? then '[' else '{'
  }

  lemma PrintShape(v: Json)
    requires v.Array? || v.Object?
    ensures Print(v) == [Bracket(v)] + Body(v) + [Closing(Bracket(v))]
  {
  }

  lemma CloseEnds(rest: string, opening: char)
    requires opening == '{' || opening == '['
    ensures EndFrom([Closing(opening)] + rest, Scan(1, false, false), opening) == 1
    ensures Reads([opening], Scan(0, false, false), Scan(1, false, false), opening)
  {
    var zero, one := Scan(0, false, false), Scan(1, false, false);
    assert Reads([opening][1..], one, one, opening);
  }

  /** The scanner cuts an array or object exactly at its own closing bracket. */
  lemma {:induction false} ValueEnds(v: Json, rest: string)
    requires Composite(v)
    ensures |Print(v)| >= 2 && Print(v)[0] == Bracket(v) && Print(v)[|Print(v)| - 1] == Closing(Bracket(v))
    ensures EndFrom(Print(v) + rest, Scan(0, false, false), Bracket(v)) == |Print(v)|
  {
    hide Print, EndFrom, Reads, PrintItems, PrintMembers, JsonOk;
    var opening := Bracket(v);
    var zero, one := Scan(0, false, false), Scan(1, false, false);
    var close := [Closing(opening)];
    PrintShape(v);
    ReadsBody(v, one, opening);
    CloseEnds(rest, opening);
    ReadsConcat([opening], Body(v), zero, one, one, opening);
    EndAfter([opening] + Body(v), close + rest, zero, one, opening);
    assert Print(v) + rest == [opening] + Body(v) + (close + rest);
  }

  lemma {:induction false} TrimStartSpace(a: string, b: string)
    requires AllSpace(a)
    ensures TrimStart(a + b) == TrimStart(b)
  {
    if |a| == 0 {
      assert a + b == b;
    } else {
      assert (a + b)[1..] == a[1..] + b;
      TrimStartSpace(a[1..], b);
    }
  }

  lemma {:induction false} TrimEndKeeps(a: string, b: string)
    requires |a| > 0 && !IsSpace(a[|a| - 1])
    ensures TrimEnd(a + b) == a + TrimEnd(b)
    decreases |b|
  {
    if |b| == 0 {
      assert a + b == a;
    } else if IsSpace(b[|b| - 1]) {
      assert (a + b)[..|a + b| - 1] == a + b[..|b| - 1];
      TrimEndKeeps(a, b[..|b| - 1]);
    }
  }

  lemma {:induction false} TrimStartOfTrimEnd(s: string)
    ensures TrimStart(TrimEnd(s)) == TrimEnd(TrimStart(s))
    decreases |s|
  {
    if |s| > 0 {
      if IsSpace(s[0]) {
        TrimStartOfTrimEnd(s[1..]);
        TrimEndCons(s[0], s[1..]);
        assert [s[0]] + s[1..] == s;
      } else {
        TrimEndKeeps([s[0]], s[1..]);
        assert [s[0]] + s[1..] == s;
      }
    }
  }

  lemma {:induction false} TrimEndCons(c: char, s: string)
    requires IsSpace(c)
    ensures TrimStart(TrimEnd([c] + s)) == TrimStart(TrimEnd(s))
    decreases |s|
  {
    if |s| == 0 {
      assert ([c] + s)[..0] == "";
    } else if IsSpace(s[|s| - 1]) {
      assert ([c] + s)[..|s|] == [c] + s[..|s| - 1];
      TrimEndCons(c, s[..|s| - 1]);
    } else {
      assert ([c] + s)[1..] == s;
    }
  }

  lemma TrimValue(gap: string, value: string, rest: string)
    requires AllSpace(gap) && |value| > 0 && !IsSpace(value[0]) && !IsSpace(value[|value| - 1])
    ensures Trim(gap + value + rest) == value + TrimEnd(rest)
  {
    assert gap + value + rest == gap + (value + rest);
    TrimStartSpace(gap, value + rest);
    TrimEndKeeps(value, rest);
  }

  lemma {:induction false} TrimEndTwice(s: string)
    ensures TrimEnd(TrimEnd(s)) == TrimEnd(s)
  {
    if |s| > 0 && IsSpace(s[|s| - 1]) {
      TrimEndTwice(s[..|s| - 1]);
    }
  }

  lemma TrimOfTrimEnd(s: string)
    ensures Trim(TrimEnd(s)) == Trim(s)
  {
    TrimStartOfTrimEnd(s);
    TrimEndTwice(TrimStart(s));
  }

  /** Values one after the other, each behind some white space, and a tail. */
  function Written(vs: seq<Json>, gaps: seq<string>, tail: string): string
    requires |vs| == |gaps|
  {
    if |vs| == 0 then tail else gaps[0] + Print(vs[0]) + Written(vs[1..], gaps[1..], tail)
  }

  function Texts(vs: seq<Json>): seq<string> {
    seq(|vs|, i requires 0 <= i < |vs| => Print(vs[i]))
  }

  lemma PrintedEnds(v: Json)
    requires Composite(v)
    ensures |Print(v)| >= 2 && !IsSpace(Print(v)[0]) && !IsSpace(Print(v)[|Print(v)| - 1])
  {
    ValueEnds(v, "");
  }

  /** Any arrays and objects written one after the other are cut apart exactly, and
      what follows them is returned trimmed. */
  lemma {:induction false} SplitsExactly(vs: seq<Json>, gaps: seq<string>, tail: string)
    requires |vs| == |gaps| && (forall i :: 0 <= i < |vs| ==> Composite(vs[i]) && AllSpace(gaps[i]))
    ensures Values(Trim(Written(vs, gaps, tail)), |vs|) == Ok(Texts(vs), Trim(tail))
  {
    hide Print, EndFrom, Trim, TrimEnd, IsSpace, Values, JsonOk;
    if |vs| == 0 {
      NothingToCut(tail);
    } else {
      var first, rest := Print(vs[0]), Written(vs[1..], gaps[1..], tail);
      PrintedEnds(vs[0]);
      TrimValue(gaps[0], first, rest);
      TrimOfTrimEnd(rest);
      CutFirst(vs[0], TrimEnd(rest), |vs|);
      SplitsExactly(vs[1..], gaps[1..], tail);
      assert Texts(vs) == [first] + Texts(vs[1..]);
    }
  }

  lemma NothingToCut(tail: string)
    ensures Values(Trim(tail), 0) == Ok([], Trim(tail))
  {
  }

  lemma CutFirst(v: Json, rest: string, count: nat)
    requires Composite(v) && count > 0
    ensures Values(Print(v) + rest, count) == Prepend([Print(v)], Values(Trim(rest), count - 1))
  {
    hide Print, EndFrom, Trim, JsonOk;
    ValueEnds(v, rest);
    var text := Print(v) + rest;
    assert text[..|Print(v)|] == Print(v) && text[|Print(v)|..] == rest;
    assert text[0] == Bracket(v);
  }

  /** A cut text ends where the whole does, or not at all. */
  lemma {:induction false} EndOfPrefix(text: string, k: nat, st: Scan, opening: char)
    requires k <= |text|
    ensures var e := EndFrom(text, st, opening);
            EndFrom(text[..k], st, opening) == if 0 <= e <= k then e else -1
    decreases |text|
  {
    EndInRange(text, st, opening);
    if k > 0 && !Ends(st, text[0], opening) {
      assert text[..k][1..] == text[1..][..k - 1];
      EndOfPrefix(text[1..], k - 1, Next(st, text[0], opening), opening);
      EndInRange(text[1..], Next(st, text[0], opening), opening);
    }
  }

  /** Every proper prefix of a printed value, however it is cut, is reported incomplete. */
  lemma CutShort(v: Json, k: nat, count: nat)
    requires Composite(v) && 0 < k < |Print(v)| && count > 0
    ensures Values(Print(v)[..k], count) == Incomplete
  {
    hide Print, EndFrom, JsonOk;
    ValueEnds(v, "");
    assert Print(v) + "" == Print(v);
    EndOfPrefix(Print(v), k, Scan(0, false, false), Bracket(v));
  }

  // ------------------------------------------------------------- in plain terms

  /** White space by section 2 of RFC 8259. */
  predicate JsonSpace(s: string) {
    forall i :: 0 <= i < |s| ==> s[i] == ' ' || s[i] == '\t' || s[i] == '\n' || s[i] == '\r'
  }

  /** Arrays and objects with any JSON white space between them are cut apart exactly. */
  lemma SplitsJsonTexts(vs: seq<Json>, gaps: seq<string>, tail: string)
    requires |vs| == |gaps| && (forall i :: 0 <= i < |vs| ==> Composite(vs[i]) && JsonSpace(gaps[i]))
    ensures Values(Trim(Written(vs, gaps, tail)), |vs|) == Ok(Texts(vs), Trim(tail))
  {
    forall i | 0 <= i < |gaps| ensures AllSpace(gaps[i]) {
      assert JsonSpace(gaps[i]);
    }
    hide Print, EndFrom, Trim, TrimEnd, IsSpace, Values, JsonOk;
    SplitsExactly(vs, gaps, tail);
  }

  lemma {:induction false} TrimStartMeans(s: string) returns (a: string)
    ensures AllSpace(a) && s == a + TrimStart(s) && (TrimStart(s) != "" ==> !IsSpace(TrimStart(s)[0]))
  {
    if |s| > 0 && IsSpace(s[0]) {
      a := TrimStartMeans(s[1..]);
      a := [s[0]] + a;
    } else {
      a := "";
    }
  }

  lemma {:induction false} TrimEndMeans(s: string) returns (b: string)
    ensures AllSpace(b) && s == TrimEnd(s) + b && (TrimEnd(s) != "" ==> !IsSpace(TrimEnd(s)[|TrimEnd(s)| - 1]))
    ensures TrimEnd(s) != "" ==> TrimEnd(s)[0] == s[0]
  {
    if |s| > 0 && IsSpace(s[|s| - 1]) {
      b := TrimEndMeans(s[..|s| - 1]);
      b := b + [s[|s| - 1]];
    } else {
      b := "";
    }
  }

  /** Trimming removes white space at both ends, all of it, and nothing else. */
  lemma TrimMeans(s: string) returns (a: string, b: string)
    ensures AllSpace(a) && AllSpace(b) && s == a + Trim(s) + b
    ensures Trim(s) != "" ==> !IsSpace(Trim(s)[0]) && !IsSpace(Trim(s)[|Trim(s)| - 1])
  {
    hide IsSpace;
    a := TrimStartMeans(s);
    b := TrimEndMeans(TrimStart(s));
  }

  /** A value is required exactly where a text does not begin with a bracket. */
  lemma RequiresValue(rest: string, count: nat)
    requires count > 0
    ensures rest == "" || (rest[0] != '{' && rest[0] != '[') ==> Values(rest, count) == ValueRequired
    ensures Values(rest, 1) == ValueRequired ==> rest == "" || (rest[0] != '{' && rest[0] != '[')
  {
    hide EndFrom, Trim;
  }
}

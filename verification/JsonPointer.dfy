/** Resolution of JSON pointers into a parsed document. */
module JsonPointer {
  import opened PythonText

  datatype Doc = Scalar(text: string) | List(items: seq<Doc>) | Dict(fields: map<string, Doc>)

  datatype Error = ValueError | IndexError | KeyError | TypeError

  datatype Result<+T> = Ok(value: T) | Err(error: Error)

  // ----- Tokens -----

  /** Left-to-right replacement of the two characters `~c` by `out`. */
  function Replace(s: string, c: char, out: char): string {
    if |s| < 2 then s
    else if s[0] == '~' && s[1] == c then [out] + Replace(s[2..], c, out)
    else [s[0]] + Replace(s[1..], c, out)
  }

  function Unescape(s: string): string {
    Replace(Replace(s, '1', '/'), '0', '~')
  }

  /** Both escapes decoded together, in one pass. */
  function Decode(s: string): string {
    if |s| < 2 then s
    else if s[0] == '~' && s[1] == '0' then "~" + Decode(s[2..])
    else if s[0] == '~' && s[1] == '1' then "/" + Decode(s[2..])
    else [s[0]] + Decode(s[1..])
  }

  function EscapeChar(c: char): string {
    if c == '~' then "~0" else if c == '/' then "~1" else [c]
  }

  function Escape(s: string): string {
    if |s| == 0 then "" else EscapeChar(s[0]) + Escape(s[1..])
  }

  lemma {:induction false} ReplaceHead(s: string, c: char, out: char)
    requires |s| > 0 && out != '0'
    ensures var r := Replace(s, c, out);
            |r| > 0 && (r[0] == '0' <==> s[0] == '0')
  {}

  /** The two replacement passes, in this order, decode every token as one pass does. */
  lemma {:induction false} TwoPasses(s: string)
    ensures Unescape(s) == Decode(s)
  {
    if |s| >= 2 {
      if s[0] == '~' && s[1] == '0' {
        assert s[1..][1..] == s[2..];
        TwoPasses(s[2..]);
        var tail := Replace(s[2..], '1', '/');
        if |s| > 2 {
          assert Replace(s[1..], '1', '/') == ['0'] + tail;
        }
        assert Replace(s, '1', '/') == ['~', '0'] + tail;
        assert (['~', '0'] + tail)[2..] == tail;
      } else if s[0] == '~' && s[1] == '1' {
        TwoPasses(s[2..]);
        var tail := Replace(s[2..], '1', '/');
        assert (['/'] + tail)[1..] == tail;
      } else {
        TwoPasses(s[1..]);
        var tail := Replace(s[1..], '1', '/');
        ReplaceHead(s[1..], '1', '/');
        assert ([s[0]] + tail)[1..] == tail;
      }
    }
  }

  /** The passes in the other order: an escaped tilde before a `1` becomes a slash. */
  lemma OtherOrderFails()
    ensures Replace(Replace("~01", '0', '~'), '1', '/') == "/" && Unescape("~01") == "~1" == Unescape(Escape("~1"))
  {
    assert Replace("1", '0', '~') == "1" && Replace("01", '1', '/') == "0" + Replace("1", '1', '/');
    assert Replace("~01", '0', '~') == "~1";
    assert Replace("~01", '1', '/') == "~" + Replace("01", '1', '/') == "~01";
    assert Escape("~1") == "~0" + Escape("1") && Escape("1") == "1" + Escape("");
  }

  lemma {:induction false} DecodesEscape(s: string)
    ensures Decode(Escape(s)) == s
  {
    if |s| > 0 {
      var tail := Escape(s[1..]);
      DecodesEscape(s[1..]);
      if s[0] == '~' || s[0] == '/' {
        assert Escape(s)[2..] == tail;
      } else {
        assert Escape(s)[1..] == tail;
      }
    }
  }

  lemma {:induction false} NoSlash(s: string)
    ensures '/' !in Escape(s)
  {
    if |s| > 0 {
      NoSlash(s[1..]);
    }
  }

  // ----- Splitting -----

  function Split(s: string): (parts: seq<string>)
    ensures |parts| > 0
  {
    if |s| == 0 then [""]
    else
      var rest := Split(s[1..]);
      if s[0] == '/' then [""] + rest else [[s[0]] + rest[0]] + rest[1..]
  }

  /** The pointer for a list of names: each escaped, after a slash. */
  function Pointer(names: seq<string>): string {
    if |names| == 0 then "" else "/" + Escape(names[0]) + Pointer(names[1..])
  }

  function EscapeAll(names: seq<string>): (parts: seq<string>)
    ensures |parts| == |names|
  {
    if |names| == 0 then [] else [Escape(names[0])] + EscapeAll(names[1..])
  }

  lemma {:induction false} SplitToken(token: string, rest: string)
    requires '/' !in token && (rest == "" || rest[0] == '/')
    ensures Split(token + rest) == [token] + (if rest == "" then [] else Split(rest[1..]))
  {
    if |token| == 0 {
      assert token + rest == rest;
    } else {
      assert (token + rest)[1..] == token[1..] + rest;
      SplitToken(token[1..], rest);
      assert token == [token[0]] + token[1..];
    }
  }

  lemma {:induction false} SplitsPointer(names: seq<string>)
    requires |names| > 0
    ensures Split(Pointer(names)[1..]) == EscapeAll(names)
  {
    hide Escape, Split;
    var token, rest := Escape(names[0]), Pointer(names[1..]);
    NoSlash(names[0]);
    assert Pointer(names)[1..] == token + rest;
    SplitToken(token, rest);
    if |names| > 1 {
      SplitsPointer(names[1..]);
    }
  }

  // ----- Indices -----

  /** Decimal digits read from the last, with single underscores between them. */
  function ParseDigits(s: string): Result<int> {
    if |s| == 0 || DigitValue(s[|s| - 1]) < 0 then Err(ValueError)
    else if |s| == 1 then Ok(DigitValue(s[0]))
    else
      var high := ParseDigits(s[..if s[|s| - 2] == '_' then |s| - 2 else |s| - 1]);
      if high.Err? then high else Ok(10 * high.value + DigitValue(s[|s| - 1]))
  }

  /** Python's `int` of a string. */
  function ParseInt(s: string): Result<int> {
    var t := Strip(s);
    if |t| > 0 && t[0] == '-' then
      var n := ParseDigits(t[1..]);
      if n.Err? then n else Ok(-n.value)
    else ParseDigits(if |t| > 0 && t[0] == '+' then t[1..] else t)
  }

  function Decimal(n: nat): (s: string)
    ensures |s| > 0 && forall i :: 0 <= i < |s| ==> '0' <= s[i] <= '9'
  {
    if n < 10 then [('0' as nat + n) as char] else Decimal(n / 10) + [('0' as nat + n % 10) as char]
  }

  lemma {:induction false} ParsesDigits(n: nat)
    ensures ParseDigits(Decimal(n)) == Ok(n)
  {
    if n >= 10 {
      ParsesDigits(n / 10);
      var s := Decimal(n);
      assert s[..|s| - 1] == Decimal(n / 10);
    }
  }

  lemma ParsesDecimal(n: nat)
    ensures ParseInt(Decimal(n)) == Ok(n)
  {
    ParsesDigits(n);
    StripsNothing(Decimal(n));
  }

  // ----- Resolution -----

  /** One subscript: a list takes the index that its part spells, negative ones counting
      from the end; a dictionary takes the part as its key. */
  function Child(d: Doc, name: string): Result<Doc> {
    match d
    case Scalar(_) => Err(TypeError)
    case List(items) =>
      var n := ParseInt(name);
      if n.Err? then Err(n.error)
      else if 0 <= n.value < |items| then Ok(items[n.value])
      else if -|items| <= n.value < 0 then Ok(items[|items| + n.value])
      else Err(IndexError)
    case Dict(fields) => if name in fields then Ok(fields[name]) else Err(KeyError)
  }

  function Follow(d: Doc, names: seq<string>): Result<Doc> {
    if |names| == 0 then Ok(d)
    else
      var next := Child(d, names[0]);
      if next.Err? then next else Follow(next.value, names[1..])
  }

  function UnescapeAll(parts: seq<string>): (names: seq<string>)
    ensures |names| == |parts|
    ensures forall i :: 0 <= i < |parts| ==> names[i] == Unescape(parts[i])
  {
    if |parts| == 0 then [] else [Unescape(parts[0])] + UnescapeAll(parts[1..])
  }

  function Resolved(d: Doc, pointer: string): Result<Doc> {
    if pointer == "" then Ok(d)
    else if pointer[0] != '/' then Err(ValueError)
    else Follow(d, UnescapeAll(Split(pointer[1..])))
  }

  method Resolve(d: Doc, pointer: string) returns (r: Result<Doc>)
    ensures r == Resolved(d, pointer)
  {
    if pointer == "" {
      return Ok(d);
    }
    if pointer[0] != '/' {
      return Err(ValueError);
    }
    var current, parts := d, Split(pointer[1..]);
    ghost var names := UnescapeAll(parts);
    assert names[0..] == names;
    for i := 0 to |parts|
      invariant Follow(d, names) == Follow(current, names[i..])
    {
      var part := Unescape(parts[i]);
      assert names[i..][0] == part && names[i..][1..] == names[i + 1..];
      var next := Child(current, part);
      if next.Err? {
        return next;
      }
      current := next.value;
    }
    r := Ok(current);
  }

  lemma {:induction false} UnescapesAll(names: seq<string>)
    ensures UnescapeAll(EscapeAll(names)) == names
  {
    if |names| > 0 {
      TwoPasses(Escape(names[0]));
      DecodesEscape(names[0]);
      UnescapesAll(names[1..]);
    }
  }

  /** The escaped pointer of any names subscripts the document by exactly those names,
      whether the lookups succeed or fail. */
  lemma PointerFollowsNames(d: Doc, names: seq<string>)
    ensures Resolved(d, Pointer(names)) == Follow(d, names)
  {
    if |names| > 0 {
      SplitsPointer(names);
      UnescapesAll(names);
    }
  }

  // ----- Paths -----

  datatype Part = Key(name: string) | Index(i: nat)

  /** A path into a document, each part fitting the node it is applied to. */
  predicate Path(d: Doc, path: seq<Part>)
    decreases |path|
  {
    |path| == 0
    || match (d, path[0])
       case (Dict(fields), Key(name)) => name in fields && Path(fields[name], path[1..])
       case (List(items), Index(i)) => i < |items| && Path(items[i], path[1..])
       case _ => false
  }

  function NodeAt(d: Doc, path: seq<Part>): Doc
    requires Path(d, path)
    decreases |path|
  {
    if |path| == 0 then d
    else match path[0]
      case Key(name) => NodeAt(d.fields[name], path[1..])
      case Index(i) => NodeAt(d.items[i], path[1..])
  }

  function Names(path: seq<Part>): (names: seq<string>)
    ensures |names| == |path|
  {
    if |path| == 0 then []
    else [match path[0] case Key(name) => name case Index(i) => Decimal(i)] + Names(path[1..])
  }

  lemma {:induction false} FollowsPath(d: Doc, path: seq<Part>)
    requires Path(d, path)
    ensures Follow(d, Names(path)) == Ok(NodeAt(d, path))
    decreases |path|
  {
    if |path| > 0 {
      match path[0] {
        case Key(name) =>
          FollowsPath(d.fields[name], path[1..]);
        case Index(i) =>
          ParsesDecimal(i);
          FollowsPath(d.items[i], path[1..]);
      }
    }
  }

  /** Every path of keys and in-range indices is reached by its escaped pointer. */
  lemma PointerReachesPath(d: Doc, path: seq<Part>)
    requires Path(d, path)
    ensures Resolved(d, Pointer(Names(path))) == Ok(NodeAt(d, path))
  {
    PointerFollowsNames(d, Names(path));
    FollowsPath(d, path);
  }

  /** The path that names take, the indices resolved. */
  function PathTaken(d: Doc, names: seq<string>): (path: seq<Part>)
    requires Follow(d, names).Ok?
    decreases |names|
  {
    if |names| == 0 then []
    else
      var next := Child(d, names[0]).value;
      [if d.Dict? then Key(names[0])
       else
         var n := ParseInt(names[0]).value;
         Index(if n < 0 then |d.items| + n else n)] + PathTaken(next, names[1..])
  }

  lemma {:induction false} TakesPath(d: Doc, names: seq<string>)
    requires Follow(d, names).Ok?
    ensures var path := PathTaken(d, names);
            Path(d, path) && Follow(d, names) == Ok(NodeAt(d, path))
    decreases |names|
  {
    if |names| > 0 {
      TakesPath(Child(d, names[0]).value, names[1..]);
    }
  }

  /** Whatever pointer resolves, it resolves to a node of the document, and the
      canonical pointer of that node's path resolves to the same. */
  lemma ResolvesOnlyToNodes(d: Doc, pointer: string)
    requires Resolved(d, pointer).Ok?
    ensures exists path ::
              Path(d, path) && Resolved(d, pointer) == Ok(NodeAt(d, path)) == Resolved(d, Pointer(Names(path)))
  {
    var names := if pointer == "" then [] else UnescapeAll(Split(pointer[1..]));
    TakesPath(d, names);
    PointerReachesPath(d, PathTaken(d, names));
  }

  lemma ParsesNegative(k: nat)
    ensures ParseInt("-" + Decimal(k)).Ok? && ParseInt("-" + Decimal(k)).value + k == 0
  {
    hide Decimal;
    var name := "-" + Decimal(k);
    ParsesDigits(k);
    StripsNothing(name);
    assert name[1..] == Decimal(k);
  }

  /** A negative index counts from the end of a list. */
  lemma FromTheEnd(items: seq<Doc>, k: nat)
    requires 1 <= k <= |items|
    ensures Resolved(List(items), Pointer(["-" + Decimal(k)])) == Ok(items[|items| - k])
  {
    hide ParseInt, Decimal, Resolved, Pointer;
    var names := ["-" + Decimal(k)];
    PointerFollowsNames(List(items), names);
    ParsesNegative(k);
    assert names[1..] == [];
  }

  /** What is refused, and how. */
  lemma Refusals(d: Doc, names: seq<string>, name: string, pointer: string)
    requires Follow(d, names).Ok?
    ensures var node := Follow(d, names).value;
            var r := Resolved(d, Pointer(names + [name]));
            && (node.Scalar? ==> r == Err(TypeError))
            && (node.Dict? ==> r == if name in node.fields then Ok(node.fields[name]) else Err(KeyError))
            && (node.List? && ParseInt(name).Err? ==> r == Err(ValueError))
            && (node.List? && ParseInt(name).Ok? && ParseInt(name).value >= |node.items| ==> r == Err(IndexError))
            && (node.List? && ParseInt(name).Ok? && ParseInt(name).value < -|node.items| ==> r == Err(IndexError))
    ensures pointer != "" && pointer[0] != '/' ==> Resolved(d, pointer) == Err(ValueError)
    ensures Resolved(d, "") == Ok(d)
  {
    hide ParseInt;
    PointerFollowsNames(d, names + [name]);
    FollowMore(d, names, name);
    IntErrors(name);
  }

  lemma IntErrors(s: string)
    ensures ParseInt(s).Err? ==> ParseInt(s).error == ValueError
  {
    DigitErrors(Strip(s));
    if |Strip(s)| > 0 {
      DigitErrors(Strip(s)[1..]);
    }
  }

  lemma {:induction false} DigitErrors(s: string)
    ensures ParseDigits(s).Err? ==> ParseDigits(s).error == ValueError
  {
    if |s| > 1 {
      DigitErrors(s[..if s[|s| - 2] == '_' then |s| - 2 else |s| - 1]);
    }
  }

  lemma {:induction false} FollowMore(d: Doc, names: seq<string>, name: string)
    requires Follow(d, names).Ok?
    ensures Follow(d, names + [name]) == Child(Follow(d, names).value, name)
    decreases |names|
  {
    hide ParseInt;
    if |names| == 0 {
      var one := [name];
      assert names + one == one && one[1..] == [];
    } else {
      assert (names + [name])[1..] == names[1..] + [name];
      FollowMore(Child(d, names[0]).value, names[1..], name);
    }
  }

  /** A sign and white space before a number are accepted. */
  lemma AcceptsSignAndSpace(n: nat, space: char)
    requires IsSpace(space)
    ensures ParseInt("+" + Decimal(n)) == Ok(n) && ParseInt([space] + Decimal(n)) == Ok(n)
  {
    hide Decimal, IsSpace, ParseDigits;
    SpaceIsNoDigit();
    ParsesDigits(n);
    var plus, spaced := "+" + Decimal(n), [space] + Decimal(n);
    StripsNothing(plus);
    StripsNothing(Decimal(n));
    assert plus[1..] == Decimal(n) && spaced[1..] == Decimal(n);
  }

  /** An underscore is accepted between digits, and nowhere else. */
  lemma AcceptsUnderscore(n: nat, digit: nat)
    requires digit < 10
    ensures ParseDigits(Decimal(n) + "_" + [('0' as nat + digit) as char]) == Ok(10 * n + digit)
    ensures ParseDigits("_" + Decimal(digit)) == Err(ValueError)
  {
    hide Decimal;
    ParsesDigits(n);
    var s := Decimal(n) + "_" + [('0' as nat + digit) as char];
    assert s[..|s| - 2] == Decimal(n);
    OneDigit(digit);
    var bad := "_" + Decimal(digit);
    assert bad[..0] == "";
  }

  lemma OneDigit(digit: nat)
    requires digit < 10
    ensures |Decimal(digit)| == 1
  {
  }

  lemma SpaceIsNoDigit()
    ensures forall c: char :: '0' <= c <= '9' || c == '+' || c == '-' ==> !IsSpace(c)
  {
  }
}

/** Export naming in the `#[handler]` attribute: the exported name is the
    one given as `name = "..."`, or else the function's snake_case name in
    camelCase. Rust's `find` answers byte offsets; here strings are
    sequences of characters and offsets count characters, which selects
    the same substring. */
module Macros {
  import opened Wrappers

  /** `char::to_ascii_uppercase`: 'a'..'z' become 'A'..'Z'; every other
      character is unchanged. */
  function ToAsciiUppercase(c: char): (u: char)
    ensures 'a' <= c <= 'z' ==> u as int == c as int - 32
    ensures !('a' <= c <= 'z') ==> u == c
  {
    if 'a' <= c <= 'z' then (c as int - 32) as char else c
  }

  /** What the loop of `snake_to_camel` produces from `s` when
      `capitalize_next` starts as `cap`: underscores are dropped and set the
      flag; the next other character is uppercased and clears it. */
  function Camel(s: string, cap: bool): (r: string)
    ensures |r| <= |s|
  {
    if |s| == 0 then ""
    else if s[0] == '_' then Camel(s[1..], true)
    else [if cap then ToAsciiUppercase(s[0]) else s[0]] + Camel(s[1..], false)
  }

  /** `snake_to_camel`. */
  method SnakeToCamel(s: string) returns (result: string)
    ensures result == Camel(s, false)
  {
    result := "";
    var capitalizeNext := false;
    var i := 0;
    while i < |s|
      invariant 0 <= i <= |s|
      invariant result + Camel(s[i..], capitalizeNext) == Camel(s, false)
    {
      var c := s[i];
      assert s[i..][1..] == s[i + 1..];
      if c == '_' {
        capitalizeNext := true;
      } else if capitalizeNext {
        result := result + [ToAsciiUppercase(c)];
        capitalizeNext := false;
      } else {
        result := result + [c];
      }
      i := i + 1;
    }
  }

  /** The number of underscores in s. */
  function Underscores(s: string): nat
  {
    multiset(s)['_']
  }

  /** The output has no underscore. */
  lemma {:induction false} CamelHasNoUnderscore(s: string, cap: bool)
    ensures '_' !in Camel(s, cap)
  {
    if |s| > 0 {
      CamelHasNoUnderscore(s[1..], s[0] == '_');
    }
  }

  /** The output is the input less its underscores. */
  lemma {:induction false} CamelLength(s: string, cap: bool)
    ensures |Camel(s, cap)| == |s| - Underscores(s)
  {
    if |s| > 0 {
      assert s == [s[0]] + s[1..];
      assert multiset(s) == multiset{s[0]} + multiset(s[1..]);
      CamelLength(s[1..], s[0] == '_');
    }
  }

  /** Character by character: each non-underscore `s[i]` lands at position
      `i - (underscores before it)`, uppercased exactly when it follows an
      underscore (for the first character: when the flag starts set), and
      copied unchanged otherwise. */
  lemma {:induction false} CamelPositions(s: string, cap: bool, i: nat)
    requires i < |s| && s[i] != '_'
    ensures i - Underscores(s[..i]) < |Camel(s, cap)|
    ensures Camel(s, cap)[i - Underscores(s[..i])] ==
      (if (if i == 0 then cap else s[i - 1] == '_') then ToAsciiUppercase(s[i]) else s[i])
  {
    if i > 0 {
      assert s[..i] == [s[0]] + s[1..][..i - 1];
      assert multiset(s[..i]) == multiset{s[0]} + multiset(s[1..][..i - 1]);
      CamelPositions(s[1..], s[0] == '_', i - 1);
    }
  }

  /** A name without underscores is its own camelCase form. */
  lemma {:induction false} CamelWithoutUnderscore(s: string)
    requires '_' !in s
    ensures Camel(s, false) == s
  {
    if |s| > 0 {
      assert '_' !in s[1..] by {
        forall j | 0 <= j < |s[1..]| ensures s[1..][j] != '_' {
          assert s[1..][j] == s[j + 1];
        }
      }
      CamelWithoutUnderscore(s[1..]);
    }
  }

  /** A word without underscores followed by anything: its first character
      takes the flag, the rest is copied, and the flag is clear after it. */
  lemma {:induction false} CamelWord(w: string, rest: string, cap: bool)
    requires |w| > 0 && '_' !in w
    ensures Camel(w + rest, cap) == [if cap then ToAsciiUppercase(w[0]) else w[0]] + w[1..] + Camel(rest, false)
  {
    assert (w + rest)[1..] == w[1..] + rest;
    if |w| > 1 {
      assert '_' !in w[1..] by {
        forall j | 0 <= j < |w[1..]| ensures w[1..][j] != '_' {
          assert w[1..][j] == w[j + 1];
        }
      }
      CamelWord(w[1..], rest, false);
    } else {
      assert w[1..] + rest == rest;
    }
  }

  /** An underscore sets the flag and is dropped. */
  lemma CamelUnderscore(rest: string, cap: bool)
    ensures Camel("_" + rest, cap) == Camel(rest, true)
  {
    assert ("_" + rest)[1..] == rest;
  }

  /** A word with its first letter passed through `to_ascii_uppercase`. */
  function Capitalize(w: string): (r: string)
    ensures |r| == |w|
  {
    if |w| == 0 then "" else [ToAsciiUppercase(w[0])] + w[1..]
  }

  /** Words joined with single underscores: the snake_case name. */
  function SnakeJoin(ws: seq<string>): string
  {
    if |ws| == 0 then ""
    else if |ws| == 1 then ws[0]
    else ws[0] + ("_" + SnakeJoin(ws[1..]))
  }

  /** The camelCase name of the same words: the first as it is (capitalised
      when the flag starts set), every later one capitalised. */
  function CamelJoin(ws: seq<string>, cap: bool): string
  {
    if |ws| == 0 then "" else (if cap then Capitalize(ws[0]) else ws[0]) + CamelJoin(ws[1..], true)
  }

  /** Non-empty words without underscores. */
  predicate Words(ws: seq<string>)
  {
    forall i :: 0 <= i < |ws| ==> |ws[i]| > 0 && '_' !in ws[i]
  }

  /** Word by word: a snake_case name made of single underscores between
      non-empty words turns into those words in camelCase. */
  lemma {:induction false} CamelOfSnake(ws: seq<string>, cap: bool)
    requires Words(ws)
    ensures Camel(SnakeJoin(ws), cap) == CamelJoin(ws, cap)
  {
    if |ws| > 0 {
      var w := ws[0];
      assert w == [w[0]] + w[1..];
      if |ws| == 1 {
        assert w + "" == w;
        CamelWord(w, "", cap);
      } else {
        var rest := SnakeJoin(ws[1..]);
        CamelWord(w, "_" + rest, cap);
        CamelUnderscore(rest, false);
        CamelOfSnake(ws[1..], true);
      }
    }
  }

  /** The examples the crate's own unit test lists, one lemma each. */
  lemma HandleTransferExample(s: string)
    requires s == "handle_transfer"
    ensures Camel(s, false) == "handleTransfer"
  {
    var ws := ["handle", "transfer"];
    assert SnakeJoin(ws) == "handle_transfer" by {
      assert SnakeJoin(["transfer"]) == "transfer";
    }
    assert CamelJoin(ws, false) == "handleTransfer" by {
      assert CamelJoin(["transfer"], true) == "Transfer";
    }
    CamelOfSnake(ws, false);
  }

  /** The words of "handle_pair_created" ... */
  lemma PairCreatedSnake()
    ensures SnakeJoin(["handle", "pair", "created"]) == "handle_pair_created"
  {
    assert SnakeJoin(["created"]) == "created";
    assert SnakeJoin(["pair", "created"]) == "pair_created";
  }

  /** ... and their camelCase join. */
  lemma PairCreatedCamel()
    ensures CamelJoin(["handle", "pair", "created"], false) == "handlePairCreated"
  {
    assert CamelJoin(["created"], true) == "Created";
    assert CamelJoin(["pair", "created"], true) == "PairCreated";
  }

  lemma HandlePairCreatedExample(s: string)
    requires s == "handle_pair_created"
    ensures Camel(s, false) == "handlePairCreated"
  {
    var ws := ["handle", "pair", "created"];
    PairCreatedSnake();
    PairCreatedCamel();
    CamelOfSnake(ws, false);
  }

  lemma OnBlockExample(s: string)
    requires s == "on_block"
    ensures Camel(s, false) == "onBlock"
  {
    var ws := ["on", "block"];
    assert Camel(s, false) == CamelJoin(ws, false) by {
      assert s == SnakeJoin(ws);
      CamelOfSnake(ws, false);
    }
  }

  lemma SimpleExample(s: string)
    requires s == "simple"
    ensures Camel(s, false) == "simple"
  {
    CamelWithoutUnderscore(s);
  }

  // ---------------------------------------------------------------------
  // parse_handler_name
  // ---------------------------------------------------------------------

  /** `str::find(c)`: the first index holding c. */
  function FindChar(s: string, c: char): (r: Option<nat>)
    ensures r.Some? ==> r.value < |s| && s[r.value] == c && c !in s[..r.value]
    ensures r.None? ==> c !in s
  {
    if |s| == 0 then None
    else if s[0] == c then Some(0)
    else
      var r := FindChar(s[1..], c);
      assert s == [s[0]] + s[1..];
      if r.Some? then
        assert s[..r.value + 1] == [s[0]] + s[1..][..r.value];
        Some(r.value + 1)
      else None
  }

  /** pat occurs in s at index j. */
  predicate OccursAt(s: string, pat: string, j: nat)
  {
    j + |pat| <= |s| && s[j..j + |pat|] == pat
  }

  /** Occurrences in s past its first character are those in s[1..]. */
  lemma OccursShift(s: string, pat: string)
    requires |s| > 0
    ensures forall j: nat :: 1 <= j ==> (OccursAt(s, pat, j) <==> OccursAt(s[1..], pat, j - 1))
  {
    forall j: nat | 1 <= j
      ensures OccursAt(s, pat, j) <==> OccursAt(s[1..], pat, j - 1)
    {
      if j + |pat| <= |s| {
        assert s[j..j + |pat|] == s[1..][j - 1..j - 1 + |pat|];
      }
    }
  }

  /** `str::find(pat)`: the first index at which pat occurs. */
  function FindStr(s: string, pat: string): (r: Option<nat>)
    ensures r.Some? ==> OccursAt(s, pat, r.value)
    ensures r.Some? ==> forall j: nat :: j < r.value ==> !OccursAt(s, pat, j)
    ensures r.None? ==> forall j: nat :: !OccursAt(s, pat, j)
  {
    if |s| < |pat| then None
    else if s[..|pat|] == pat then Some(0)
    else
      var r := FindStr(s[1..], pat);
      OccursShift(s, pat);
      if r.Some? then Some(r.value + 1) else None
  }

  /** The text between the first two quotes of s, if there are two. */
  function Quoted(s: string): (r: Option<string>)
    ensures r.Some? ==> exists q: nat :: (q + |r.value| + 2 <= |s| && s[q] == '"'
      && s[q + 1..q + 1 + |r.value|] == r.value && s[q + 1 + |r.value|] == '"')
    ensures r.Some? ==> '"' !in r.value
  {
    match FindChar(s, '"')
    case None => None
    case Some(quoteStart) =>
      match FindChar(s[quoteStart + 1..], '"')
      case None => None
      case Some(quoteEnd) =>
        assert s[quoteStart + 1..][..quoteEnd] == s[quoteStart + 1..quoteStart + 1 + quoteEnd];
        Some(s[quoteStart + 1..quoteStart + 1 + quoteEnd])
  }

  /** The value of `name = "..."`: after the first "name", the first '=',
      and after it the text between the next two quotes. */
  function NameArgument(attrArgs: string): Option<string>
  {
    match FindStr(attrArgs, "name")
    case None => None
    case Some(start) =>
      match FindChar(attrArgs[start..], '=')
      case None => None
      case Some(eqPos) => Quoted(attrArgs[start + eqPos + 1..])
  }

  /** `parse_handler_name`: the quoted name when there is one, otherwise the
      camelCase form of the function name. */
  function ParseHandlerName(attrArgs: string, fnName: string): (r: string)
    ensures NameArgument(attrArgs).Some? ==> r == NameArgument(attrArgs).value && '"' !in r
    ensures NameArgument(attrArgs).None? ==> r == Camel(fnName, false) && '_' !in r
  {
    CamelHasNoUnderscore(fnName, false);
    match NameArgument(attrArgs)
    case Some(name) => name
    case None => Camel(fnName, false)
  }

  /** Without "name" in the arguments, or without a '=' after it, the
      function name decides. */
  lemma NoNameFallsBack(attrArgs: string, fnName: string)
    requires forall j: nat :: !OccursAt(attrArgs, "name", j)
    ensures ParseHandlerName(attrArgs, fnName) == Camel(fnName, false)
  {
  }

  /** The examples the crate's own unit test lists. */
  lemma DefaultNameExample(fnName: string)
    requires fnName == "handle_transfer"
    ensures ParseHandlerName("", fnName) == "handleTransfer"
  {
    HandleTransferExample(fnName);
  }

  /** After the '=', the text between the quotes is v. */
  lemma {:induction false} QuotedAfterEquals(v: string)
    requires '"' !in v
    ensures Quoted(" \"" + v + "\"") == Some(v)
  {
    var afterEq := " \"" + v + "\"";
    assert FindChar(afterEq, '"') == Some(1) by {
      assert afterEq[1] == '"' && afterEq[..1] == " ";
    }
    assert FindChar(afterEq[2..], '"') == Some(|v|) by {
      assert afterEq[2..] == v + "\"";
      assert afterEq[2..][..|v|] == v;
    }
    assert afterEq[2..2 + |v|] == v;
  }

  /** Arguments that start with `name =` are searched from there. */
  lemma {:induction false} NameEqualsPrefix(tail: string)
    ensures FindStr("name =" + tail, "name") == Some(0)
    ensures FindChar(("name =" + tail)[0..], '=') == Some(5)
    ensures ("name =" + tail)[6..] == tail
  {
    var attr := "name =" + tail;
    assert attr[..4] == "name";
    assert attr[0..] == attr;
    assert attr[5] == '=' && attr[..5] == "name ";
  }

  /** `name = "v"` names the export v, whatever the function is called. */
  lemma {:induction false} NameEqualsQuoted(v: string, fnName: string)
    requires '"' !in v
    ensures ParseHandlerName("name =" + (" \"" + v + "\""), fnName) == v
  {
    NameEqualsPrefix(" \"" + v + "\"");
    QuotedAfterEquals(v);
    assert NameArgument("name =" + (" \"" + v + "\"")) == Some(v);
  }

  lemma CustomNameExample(attr: string, fnName: string)
    requires attr == "name = \"customHandler\""
    ensures ParseHandlerName(attr, fnName) == "customHandler"
  {
    var v := "customHandler";
    assert attr == "name =" + (" \"" + v + "\"");
    NameEqualsQuoted(v, fnName);
  }
}

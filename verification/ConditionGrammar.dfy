/** Writing a tree in the documented grammar and parsing it gives the tree back. */
module ConditionGrammar {
  import opened Wrappers
  import opened ConditionParser

  /** A tree as text.  `braces(name)` says whether empty parameters are still written as `{}`. */
  function Render(n: Node, braces: string -> bool): string
    decreases n, 1, 0
  {
    Head(n, braces) + if n.children == [] then "" else "(" + RenderFrom(n, 0, braces) + ")"
  }

  function Head(n: Node, braces: string -> bool): string {
    n.name + if n.parameters == "" && !braces(n.name) then "" else "{" + n.parameters + "}"
  }

  /** The children from number `i` on, with commas between them. */
  function RenderFrom(n: Node, i: nat, braces: string -> bool): string
    requires i < |n.children|
    decreases n, 0, |n.children| - i
  {
    if i + 1 == |n.children| then Render(n.children[i], braces)
    else Render(n.children[i], braces) + "," + RenderFrom(n, i + 1, braces)
  }

  predicate Bracket(c: char) {
    c == '{' || c == '}' || c == '(' || c == ')'
  }

  predicate NameText(s: string) {
    s != "" && forall i :: 0 <= i < |s| ==> !Bracket(s[i]) && s[i] != ',' && s[i] != ' '
  }

  predicate ParametersText(s: string) {
    forall i :: 0 <= i < |s| ==> !Bracket(s[i]) && s[i] != ' '
  }

  /** The trees the grammar can write. */
  predicate WellFormed(n: Node) {
    NameText(n.name) && ParametersText(n.parameters)
    && forall i :: 0 <= i < |n.children| ==> WellFormed(n.children[i])
  }

  /** The factory accepts every node of the tree, as a filter or as a condition. */
  predicate Known(f: Factory, n: Node, filter: bool) {
    && (if filter then f.filter(n) else f.condition(n))
    && forall i :: 0 <= i < |n.children| ==> Known(f, n.children[i], filter || n.name == FILTER_NAME)
  }

  // ---------- scanning text without a top-level comma ----------

  /** What the loop of splitConditions has counted after `w`, and whether it met a comma at level 0. */
  datatype Scan = Scan(quiet: bool, parameter: int, children: int)

  function ScanText(w: string, p: int, c: int): Scan
    decreases |w|
  {
    if w == "" then Scan(true, p, c)
    else
      var q, d := Depth(p, w[0], '{', '}'), Depth(c, w[0], '(', ')');
      var rest := ScanText(w[1..], q, d);
      rest.(quiet := rest.quiet && !(q == 0 && d == 0 && w[0] == ','))
  }

  lemma {:induction false} ScanAppend(a: string, b: string, p: int, c: int)
    ensures var s := ScanText(a, p, c);
            ScanText(a + b, p, c) == ScanText(b, s.parameter, s.children).(
              quiet := s.quiet && ScanText(b, s.parameter, s.children).quiet)
    decreases |a|
  {
    if a == "" {
      assert a + b == b;
    } else {
      assert (a + b)[1..] == a[1..] + b;
      ScanAppend(a[1..], b, Depth(p, a[0], '{', '}'), Depth(c, a[0], '(', ')'));
    }
  }

  /** Text without brackets changes no depth. */
  lemma {:induction false} ScanPlain(w: string, p: int, c: int)
    requires forall i :: 0 <= i < |w| ==> !Bracket(w[i])
    requires (p == 0 && c == 0) ==> forall i :: 0 <= i < |w| ==> w[i] != ','
    ensures ScanText(w, p, c) == Scan(true, p, c)
    decreases |w|
  {
    if w != "" { ScanPlain(w[1..], p, c); }
  }

  lemma ScanHead(n: Node, c: nat, braces: string -> bool)
    requires WellFormed(n)
    ensures ScanText(Head(n, braces), 0, c) == Scan(true, 0, c)
  {
    ScanPlain(n.name, 0, c);
    if n.parameters == "" && !braces(n.name) {
      assert n.name + "" == n.name;
    } else {
      var inside := "{" + n.parameters + "}";
      ScanAppend(n.name, inside, 0, c);
      ScanBraces(n.parameters, c);
    }
  }

  lemma ScanBraces(w: string, c: nat)
    requires ParametersText(w)
    ensures ScanText("{" + w + "}", 0, c) == Scan(true, 0, c)
  {
    assert "{" + w + "}" == "{" + (w + "}");
    ScanAppend("{", w + "}", 0, c);
    ScanAppend(w, "}", 1, c);
    ScanPlain(w, 1, c);
    assert ScanText("{", 0, c) == Scan(true, 1, c);
    assert ScanText("}", 1, c) == Scan(true, 0, c);
  }

  lemma ScanParens(w: string, c: nat)
    requires ScanText(w, 0, c + 1) == Scan(true, 0, c + 1)
    ensures ScanText("(" + w + ")", 0, c) == Scan(true, 0, c)
  {
    assert "(" + w + ")" == "(" + (w + ")");
    ScanAppend("(", w + ")", 0, c);
    ScanAppend(w, ")", 0, c + 1);
    assert ScanText("(", 0, c) == Scan(true, 0, c + 1);
    assert ScanText(")", 0, c + 1) == Scan(true, 0, c);
  }

  /** A rendered tree is quiet at every depth and comes back to that depth. */
  lemma {:induction false} ScanRender(n: Node, c: nat, braces: string -> bool)
    requires WellFormed(n)
    ensures ScanText(Render(n, braces), 0, c) == Scan(true, 0, c)
    decreases n, 1, 0
  {
    ScanHead(n, c, braces);
    if n.children == [] {
      assert Head(n, braces) + "" == Head(n, braces);
    } else {
      var inner := RenderFrom(n, 0, braces);
      ScanRenderFrom(n, 0, c + 1, braces);
      ScanParens(inner, c);
      ScanAppend(Head(n, braces), "(" + inner + ")", 0, c);
    }
  }

  lemma {:induction false} ScanRenderFrom(n: Node, i: nat, c: nat, braces: string -> bool)
    requires WellFormed(n) && i < |n.children| && c > 0
    ensures ScanText(RenderFrom(n, i, braces), 0, c) == Scan(true, 0, c)
    decreases n, 0, |n.children| - i
  {
    var first := Render(n.children[i], braces);
    ScanRender(n.children[i], c, braces);
    if i + 1 < |n.children| {
      var rest := RenderFrom(n, i + 1, braces);
      ScanRenderFrom(n, i + 1, c, braces);
      ScanAppend(first, "," + rest, 0, c);
      ScanAppend(",", rest, 0, c);
      assert ScanText(",", 0, c) == Scan(true, 0, c);
      assert first + "," + rest == first + ("," + rest);
    }
  }

  // ---------- splitting rendered text ----------

  lemma FirstAndRest<T>(xs: seq<T>, i: nat)
    requires i < |xs|
    ensures xs[i..] == [xs[i]] + xs[i + 1..]
  {
  }

  lemma RegroupTexts(a: seq<string>, b: seq<string>, c: seq<string>)
    ensures (a + b) + c == a + (b + c)
  {
  }

  /** The loop takes quiet text into its token. */
  lemma {:induction false} SplitQuiet(s: string, i: nat, w: string, p: int, c: int, token: string, tokens: seq<string>)
    requires i + |w| <= |s| && s[i..i + |w|] == w && ScanText(w, p, c).quiet
    ensures SplitLoop(s, i, p, c, token, tokens)
         == SplitLoop(s, i + |w|, ScanText(w, p, c).parameter, ScanText(w, p, c).children, token + w, tokens)
    decreases |w|
  {
    if w == "" {
      assert token + w == token;
    } else {
      assert s[i] == s[i..i + |w|][0] == w[0];
      assert s[i + 1..i + 1 + |w[1..]|] == w[1..] by {
        assert s[i + 1..i + |w|] == s[i..i + |w|][1..];
      }
      SplitQuiet(s, i + 1, w[1..], Depth(p, w[0], '{', '}'), Depth(c, w[0], '(', ')'), token + [w[0]], tokens);
      assert token + [w[0]] + w[1..] == token + w;
    }
  }

  lemma SplitOne(n: Node, braces: string -> bool)
    requires WellFormed(n)
    ensures Split(Render(n, braces)) == [Render(n, braces)]
  {
    var s := Render(n, braces);
    ScanRender(n, 0, braces);
    SplitQuiet(s, 0, s, 0, 0, "", []);
    assert "" + s == s;
  }

  /** The texts of the children from number `i` on. */
  function Texts(n: Node, i: nat, braces: string -> bool): (r: seq<string>)
    requires i <= |n.children|
    ensures |r| == |n.children| - i
    decreases |n.children| - i
  {
    if i == |n.children| then [] else [Render(n.children[i], braces)] + Texts(n, i + 1, braces)
  }

  lemma {:induction false} SplitFrom(n: Node, i: nat, s: string, at: nat, tokens: seq<string>, braces: string -> bool)
    requires WellFormed(n) && i < |n.children| && at <= |s| && s[at..] == RenderFrom(n, i, braces)
    ensures SplitLoop(s, at, 0, 0, "", tokens) == tokens + Texts(n, i, braces)
    decreases |n.children| - i
  {
    var first := Render(n.children[i], braces);
    ScanRender(n.children[i], 0, braces);
    var next := at + |first|;
    if i + 1 == |n.children| {
      SplitQuiet(s, at, first, 0, 0, "", tokens);
      assert "" + first == first;
      assert Texts(n, i, braces) == [first];
    } else {
      var rest := RenderFrom(n, i + 1, braces);
      FirstText(s, at, first, rest);
      SplitQuiet(s, at, first, 0, 0, "", tokens);
      assert "" + first == first;
      SplitFrom(n, i + 1, s, next + 1, tokens + [first], braces);
      RegroupTexts(tokens, [first], Texts(n, i + 1, braces));
    }
  }

  lemma FirstText(s: string, at: nat, first: string, rest: string)
    requires at <= |s| && s[at..] == first + "," + rest
    ensures at + |first| < |s| && s[at..at + |first|] == first
    ensures s[at + |first|] == ',' && s[at + |first| + 1..] == rest
  {
    var n := |first|;
    assert s[at..at + n] == s[at..][..n];
    assert s[at + n] == s[at..][n];
    assert s[at + n + 1..] == s[at..][n + 1..];
  }

  /** Splitting the text between the parentheses gives the texts of the children. */
  lemma SplitChildren(n: Node, braces: string -> bool)
    requires WellFormed(n) && n.children != []
    ensures Split(RenderFrom(n, 0, braces)) == Texts(n, 0, braces)
  {
    var s := RenderFrom(n, 0, braces);
    assert s[0..] == s;
    SplitFrom(n, 0, s, 0, [], braces);
  }

  // ---------- the parts of rendered text ----------

  lemma FindAt(s: string, c: char, i: nat)
    requires i < |s| && s[i] == c && forall j :: 0 <= j < i ==> s[j] != c
    ensures Find(s, c) == Some(i)
  {
    assert s[i] == c;
  }

  lemma FindNone(s: string, c: char)
    requires forall j :: 0 <= j < |s| ==> s[j] != c
    ensures Find(s, c) == None
  {
  }

  lemma LastAt(s: string, c: char)
    requires s != "" && s[|s| - 1] == c
    ensures FindLast(s, c) == Some(|s| - 1)
  {
  }

  lemma FindAfter(head: string, tail: string)
    requires (forall j :: 0 <= j < |head| ==> head[j] != '(') && (tail == "" || tail[0] == '(')
    ensures Find(head + tail, '(') == if tail == "" then None else Some(|head|)
  {
    var s := head + tail;
    if tail == "" { FindNone(s, '('); } else { FindAt(s, '(', |head|); }
  }

  lemma HeadOpen(n: Node, braces: string -> bool)
    requires WellFormed(n)
    ensures forall j :: 0 <= j < |Head(n, braces)| ==> Head(n, braces)[j] != '('
  {
  }

  /** Name and parameters are read back, whatever follows the head. */
  lemma HeadParts(n: Node, tail: string, braces: string -> bool)
    requires WellFormed(n) && (tail == "" || tail[0] == '(')
    ensures Name(Head(n, braces) + tail) == n.name && Parameters(Head(n, braces) + tail) == n.parameters
    ensures Find(Head(n, braces) + tail, '(') == if tail == "" then None else Some(|Head(n, braces)|)
  {
    var head := Head(n, braces);
    HeadOpen(n, braces);
    FindAfter(head, tail);
    if n.parameters == "" && !braces(n.name) {
      assert head == n.name;
      PlainParts(n.name, tail, head + tail);
    } else {
      assert head == n.name + ("{" + n.parameters + "}");
      BracesParts(n.name, n.parameters, tail, head + tail);
    }
  }

  lemma PlainParts(name: string, tail: string, s: string)
    requires NameText(name) && (tail == "" || tail[0] == '(') && s == name + tail
    ensures Name(s) == name && Parameters(s) == ""
  {
    FindAfter(name, tail);
    if tail == "" {
      assert s == name;
      FindNone(s, '{');
    } else {
      assert s[..|name|] == name;
      assert forall j :: 0 <= j < |name| ==> s[j] == name[j];
      var b := Find(s, '{');
      assert b.Some? ==> b.value >= |name|;
    }
  }

  lemma BracesText(name: string, parameters: string, tail: string, s: string)
    requires NameText(name) && ParametersText(parameters) && s == (name + ("{" + parameters + "}")) + tail
    ensures |s| >= |name| + |parameters| + 2
    ensures s[|name|] == '{' && s[|name| + 1 + |parameters|] == '}'
    ensures s[..|name|] == name && s[|name| + 1..|name| + 1 + |parameters|] == parameters
  {
    var inside := "{" + parameters + "}";
    assert s[|name|..] == inside + tail;
    assert s[|name|] == s[|name|..][0];
    assert s[|name| + 1 + |parameters|] == s[|name|..][1 + |parameters|];
    assert s[|name| + 1..|name| + 1 + |parameters|] == s[|name|..][1..1 + |parameters|];
  }

  lemma BracesParts(name: string, parameters: string, tail: string, s: string)
    requires NameText(name) && ParametersText(parameters) && (tail == "" || tail[0] == '(')
    requires s == (name + ("{" + parameters + "}")) + tail
    ensures Name(s) == name && Parameters(s) == parameters
  {
    BracesText(name, parameters, tail, s);
    var start, end := |name|, |name| + 1 + |parameters|;
    assert forall j :: 0 <= j < start ==> s[j] == s[..start][j];
    assert forall j :: start < j < end ==> s[j] == s[start + 1..end][j - start - 1];
    FindAt(s, '{', start);
    FindAt(s, '}', end);
    var n := Find(s, '(');
    assert n.Some? ==> n.value > end;
  }

  lemma Enclosed(head: string, inner: string, s: string)
    requires s == head + ("(" + inner + ")")
    ensures |s| == |head| + |inner| + 2 && s[|s| - 1] == ')' && s[|head| + 1..|s| - 1] == inner
  {
    var tail := "(" + inner + ")";
    assert s[|head|..] == tail;
    assert s[|s| - 1] == s[|head|..][|inner| + 1];
    assert tail[1..|inner| + 1] == inner;
    assert s[|head| + 1..|s| - 1] == s[|head|..][1..|inner| + 1];
  }

  lemma InnerParts(head: string, inner: string, s: string)
    requires s == head + ("(" + inner + ")") && Find(s, '(') == Some(|head|)
    ensures InnerText(s) == Inner(inner)
  {
    Enclosed(head, inner, s);
    LastAt(s, ')');
  }

  lemma RenderParts(n: Node, braces: string -> bool)
    requires WellFormed(n)
    ensures Name(Render(n, braces)) == n.name && Parameters(Render(n, braces)) == n.parameters
    ensures InnerText(Render(n, braces)) == if n.children == [] then NoInner else Inner(RenderFrom(n, 0, braces))
  {
    if n.children == [] {
      HeadParts(n, "", braces);
    } else {
      var inner := RenderFrom(n, 0, braces);
      HeadParts(n, "(" + inner + ")", braces);
      InnerParts(Head(n, braces), inner, Render(n, braces));
    }
  }

  // ---------- parsing rendered text ----------

  /** The outcome the parser should give for a tree: the tree, if the factory knows all of it. */
  ghost predicate Reads(r: Result<seq<Node>>, ns: seq<Node>, known: bool) {
    if known then r == Ok(ns) else r.Err?
  }

  lemma ReadsAppend(a: Result<seq<Node>>, b: Result<seq<Node>>, n: Node, ns: seq<Node>, first: bool, others: bool)
    requires Reads(a, [n], first) && Reads(b, ns, others)
    ensures Reads(Append(a, b), [n] + ns, first && others)
  {
  }

  predicate Below(tokens: seq<string>, bound: nat) {
    forall t :: t in tokens ==> |t| < bound
  }

  lemma TextsRest(n: Node, i: nat, bound: nat, braces: string -> bool)
    requires i < |n.children| && Below(Texts(n, i, braces), bound)
    ensures Texts(n, i, braces)[0] == Render(n.children[i], braces)
    ensures Texts(n, i, braces)[1..] == Texts(n, i + 1, braces) && Below(Texts(n, i + 1, braces), bound)
  {
  }

  predicate AllKnown(f: Factory, n: Node, i: nat, filter: bool)
    requires i <= |n.children|
  {
    forall j :: i <= j < |n.children| ==> Known(f, n.children[j], filter)
  }

  lemma {:induction false} ReadsFilter(f: Factory, n: Node, braces: string -> bool)
    requires WellFormed(n)
    ensures Reads(ParseFilters(f, Render(n, braces)), [n], Known(f, n, true))
    decreases n, 2, 0
  {
    SplitOne(n, braces);
    RenderParts(n, braces);
    assert n == Node(n.name, n.parameters, n.children);
    if n.children != [] { ReadsFilterChildren(f, n, braces); }
  }

  lemma {:induction false} ReadsFilterChildren(f: Factory, n: Node, braces: string -> bool)
    requires WellFormed(n) && n.children != []
    ensures Reads(ParseFilters(f, RenderFrom(n, 0, braces)), n.children, AllKnown(f, n, 0, true))
    decreases n, 1, 0
  {
    var s := RenderFrom(n, 0, braces);
    SplitChildren(n, braces);
    SplitShorter(s);
    if |n.children| == 1 {
      ReadsFilter(f, n.children[0], braces);
      assert n.children == [n.children[0]];
    } else {
      ReadsFilterTokens(f, n, 0, |s|, braces);
      assert n.children[0..] == n.children;
    }
  }

  lemma {:induction false} ReadsFilterTokens(f: Factory, n: Node, i: nat, bound: nat, braces: string -> bool)
    requires WellFormed(n) && i <= |n.children| && Below(Texts(n, i, braces), bound)
    ensures Reads(FilterTokens(f, Texts(n, i, braces), bound), n.children[i..], AllKnown(f, n, i, true))
    decreases n, 0, |n.children| - i
  {
    if i < |n.children| {
      TextsRest(n, i, bound, braces);
      ReadsFilter(f, n.children[i], braces);
      ReadsFilterTokens(f, n, i + 1, bound, braces);
      FirstAndRest(n.children, i);
      ReadsAppend(ParseFilters(f, Texts(n, i, braces)[0]), FilterTokens(f, Texts(n, i + 1, braces), bound),
                  n.children[i], n.children[i + 1..], Known(f, n.children[i], true), AllKnown(f, n, i + 1, true));
    }
  }

  /** For filters the two copies of the code do the same (ConditionParser.h:69-114 and 117-160). */
  lemma {:induction false} FilterCopiesAgree(f: Factory, s: string)
    ensures ParseConditions(f, s, true) == ParseFilters(f, s)
    decreases |s|, 1, 0
  {
    SplitShorter(s);
    if |Split(s)| > 1 { FilterTokensAgree(f, Split(s), |s|); }
  }

  lemma {:induction false} FilterTokensAgree(f: Factory, tokens: seq<string>, bound: nat)
    requires forall t :: t in tokens ==> |t| < bound
    ensures ConditionTokens(f, tokens, true, bound) == FilterTokens(f, tokens, bound)
    decreases bound, 0, |tokens|
  {
    if tokens != [] {
      FilterCopiesAgree(f, tokens[0]);
      FilterTokensAgree(f, tokens[1..], bound);
    }
  }

  lemma {:induction false} ReadsCondition(f: Factory, n: Node, braces: string -> bool)
    requires WellFormed(n)
    ensures Reads(ParseConditions(f, Render(n, braces), false), [n], Known(f, n, false))
    decreases n, 2, 0
  {
    SplitOne(n, braces);
    RenderParts(n, braces);
    assert n == Node(n.name, n.parameters, n.children);
    if n.children != [] { ReadsChildren(f, n, n.name == FILTER_NAME, braces); }
  }

  lemma {:induction false} ReadsChildren(f: Factory, n: Node, filter: bool, braces: string -> bool)
    requires WellFormed(n) && n.children != []
    ensures Reads(ParseConditions(f, RenderFrom(n, 0, braces), filter), n.children, AllKnown(f, n, 0, filter))
    decreases n, 1, 0
  {
    var s := RenderFrom(n, 0, braces);
    if filter {
      FilterCopiesAgree(f, s);
      ReadsFilterChildren(f, n, braces);
    } else {
      SplitChildren(n, braces);
      SplitShorter(s);
      if |n.children| == 1 {
        ReadsCondition(f, n.children[0], braces);
        assert n.children == [n.children[0]];
      } else {
        ReadsConditionTokens(f, n, 0, |s|, braces);
        assert n.children[0..] == n.children;
      }
    }
  }

  lemma {:induction false} ReadsConditionTokens(f: Factory, n: Node, i: nat, bound: nat, braces: string -> bool)
    requires WellFormed(n) && i <= |n.children| && Below(Texts(n, i, braces), bound)
    ensures Reads(ConditionTokens(f, Texts(n, i, braces), false, bound), n.children[i..], AllKnown(f, n, i, false))
    decreases n, 0, |n.children| - i
  {
    if i < |n.children| {
      TextsRest(n, i, bound, braces);
      ReadsCondition(f, n.children[i], braces);
      ReadsConditionTokens(f, n, i + 1, bound, braces);
      FirstAndRest(n.children, i);
      ReadsAppend(ParseConditions(f, Texts(n, i, braces)[0], false),
          ConditionTokens(f, Texts(n, i + 1, braces), false, bound),
                  n.children[i], n.children[i + 1..], Known(f, n.children[i], false), AllKnown(f, n, i + 1, false));
    }
  }

  // ---------- the main result ----------

  lemma {:induction false} EraseNothing(s: string)
    requires NoSpaces(s)
    ensures EraseAllSpaces(s) == s
  {
    if s != "" { EraseNothing(s[1..]); }
  }

  /** However spaces are strewn into the text of a tree, parsing gives the tree back exactly when the
      factory knows all of its nodes and the root is not a filter condition without filters. */
  lemma ParseRender(f: Factory, n: Node, s: string, braces: string -> bool)
    requires WellFormed(n) && EraseAllSpaces(s) == Render(n, braces)
    ensures Parse(f, s) == Ok(n) <==> Known(f, n, false) && !(n.name == FILTER_NAME && n.children == [])
    ensures Parse(f, s).Ok? ==> Parse(f, s) == Ok(n)
  {
    var t := Render(n, braces);
    RenderParts(n, braces);
    if n.children == [] {
      RootAlone(f, n, t);
    } else {
      ReadsChildren(f, n, n.name == FILTER_NAME, braces);
      RootRead(f, n, t, RenderFrom(n, 0, braces));
    }
  }

  lemma RootAlone(f: Factory, n: Node, t: string)
    requires Name(t) == n.name && Parameters(t) == n.parameters && InnerText(t) == NoInner && n.children == []
    ensures ParseRoot(f, t) == Ok(n) <==> Known(f, n, false) && n.name != FILTER_NAME
    ensures ParseRoot(f, t).Ok? ==> ParseRoot(f, t) == Ok(n)
  {
    assert n == Node(n.name, n.parameters, []);
  }

  lemma RootRead(f: Factory, n: Node, t: string, inner: string)
    requires Name(t) == n.name && Parameters(t) == n.parameters && InnerText(t) == Inner(inner)
    requires Reads(ParseConditions(f, inner, n.name == FILTER_NAME), n.children,
             AllKnown(f, n, 0, n.name == FILTER_NAME))
    ensures ParseRoot(f, t) == Ok(n) <==> Known(f, n, false)
    ensures ParseRoot(f, t).Ok? ==> ParseRoot(f, t) == Ok(n)
  {
    assert n == Node(n.name, n.parameters, n.children);
  }

  predicate NoSpaces(s: string) {
    forall i :: 0 <= i < |s| ==> s[i] != ' '
  }

  lemma NoSpacesAppend(a: string, b: string)
    requires NoSpaces(a) && NoSpaces(b)
    ensures NoSpaces(a + b)
  {
  }

  /** The text of a tree holds no spaces itself. */
  lemma {:induction false} RenderNoSpaces(n: Node, braces: string -> bool)
    requires WellFormed(n)
    ensures NoSpaces(Render(n, braces))
    decreases n, 1, 0
  {
    var head := Head(n, braces);
    NoSpacesAppend("{", n.parameters);
    NoSpacesAppend("{" + n.parameters, "}");
    assert NoSpaces("{" + n.parameters + "}");
    NoSpacesAppend(n.name, "{" + n.parameters + "}");
    assert NoSpaces(head);
    if n.children == [] {
      assert head + "" == head;
    } else {
      var inner := RenderFrom(n, 0, braces);
      RenderFromNoSpaces(n, 0, braces);
      NoSpacesAppend("(", inner);
      NoSpacesAppend("(" + inner, ")");
      NoSpacesAppend(head, "(" + inner + ")");
    }
  }

  lemma {:induction false} RenderFromNoSpaces(n: Node, i: nat, braces: string -> bool)
    requires WellFormed(n) && i < |n.children|
    ensures NoSpaces(RenderFrom(n, i, braces))
    decreases n, 0, |n.children| - i
  {
    RenderNoSpaces(n.children[i], braces);
    if i + 1 < |n.children| {
      RenderFromNoSpaces(n, i + 1, braces);
      NoSpacesAppend(Render(n.children[i], braces), ",");
      NoSpacesAppend(Render(n.children[i], braces) + ",", RenderFrom(n, i + 1, braces));
    }
  }

  /** In particular for the text as it is. */
  lemma ParseText(f: Factory, n: Node, braces: string -> bool)
    requires WellFormed(n)
    ensures Parse(f, Render(n, braces)) == Ok(n) <==>
            Known(f, n, false) && !(n.name == FILTER_NAME && n.children == [])
  {
    RenderNoSpaces(n, braces);
    EraseNothing(Render(n, braces));
    ParseRender(f, n, Render(n, braces), braces);
  }
}

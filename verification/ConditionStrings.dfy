/** What the condition parser makes of any string at all, well-formed or not: where it cuts, what it takes
    for name, parameters and children, which strings it accepts and with which error it refuses the others
    (ConditionParser.h, IParser.h, String.h). */
module ConditionStrings {
  import opened Wrappers
  import opened ConditionParser
  import opened ConditionGrammar

  // ---------- spaces ----------

  /** Spaces disappear, and nothing else. */
  lemma {:induction false} EraseExact(a: string, b: string)
    ensures EraseAllSpaces(a + b) == EraseAllSpaces(a) + EraseAllSpaces(b)
    ensures EraseAllSpaces("") == "" && EraseAllSpaces(" ") == ""
    ensures forall c: char :: c != ' ' ==> EraseAllSpaces([c]) == [c]
    ensures forall c :: c in EraseAllSpaces(a) <==> c in a && c != ' '
  {
    if a == "" {
      assert a + b == b;
    } else {
      assert (a + b)[1..] == a[1..] + b;
      EraseExact(a[1..], b);
      assert a == [a[0]] + a[1..];
    }
  }

  // ---------- the parts of a string ----------

  /** `i` is the place of the first `c`. */
  ghost predicate First(s: string, c: char, i: nat) {
    i < |s| && s[i] == c && forall j :: 0 <= j < i ==> s[j] != c
  }

  ghost predicate Last(s: string, c: char, i: nat) {
    i < |s| && s[i] == c && forall j :: i < j < |s| ==> s[j] != c
  }

  /** The name goes up to the first "{" or "(", or to the end. */
  lemma NameExact(s: string)
    ensures Name(s) <= s && '{' !in Name(s) && '(' !in Name(s)
    ensures |Name(s)| == |s| || s[|Name(s)|] == '{' || s[|Name(s)|] == '('
  {
  }

  /** Parameters are read only if a "{" ends the name.  They go to the first "}" of the string; when that
      comes before the "{", the length wraps around and they go to the end. */
  lemma ParametersExact(s: string)
    ensures var n := |Name(s)|;
      && (n == |s| || s[n] == '(' || '}' !in s ==> Parameters(s) == "")
      && forall end: nat :: First(s, '}', end) && n < |s| && s[n] == '{' ==>
           Parameters(s) == if n < end then s[n + 1..end] else s[n + 1..]
  {
    var n := |Name(s)|;
    forall end: nat | First(s, '}', end) && n < |s| && s[n] == '{'
      ensures Parameters(s) == if n < end then s[n + 1..end] else s[n + 1..]
    {
      assert Find(s, '{') == Some(n);
      assert Find(s, '}') == Some(end);
    }
  }

  /** The children stand between the first "(" and the last ")".  When the last ")" comes first, the length
      wraps around and they go to the end. */
  lemma InnerExact(s: string)
    ensures '(' !in s ==> InnerText(s) == NoInner
    ensures '(' in s && ')' !in s ==> InnerText(s) == Unclosed
    ensures forall start: nat, end: nat :: First(s, '(', start) && Last(s, ')', end) ==>
              InnerText(s) == Inner(if start < end then s[start + 1..end] else s[start + 1..])
  {
    forall start: nat, end: nat | First(s, '(', start) && Last(s, ')', end)
      ensures InnerText(s) == Inner(if start < end then s[start + 1..end] else s[start + 1..])
    {
      assert Find(s, '(') == Some(start);
      assert FindLast(s, ')') == Some(end);
    }
  }

  // ---------- the cuts ----------

  /** How many more `open` than `close` there are before place `i`. */
  function Balance(s: string, i: nat, open: char, close: char): int
    requires i <= |s|
  {
    if i == 0 then 0
    else Balance(s, i - 1, open, close) + if s[i - 1] == open then 1 else if s[i - 1] == close then -1 else 0
  }

  /** A comma before which braces and parentheses are balanced, in number. */
  predicate TopLevelComma(s: string, i: nat)
    requires i < |s|
  {
    s[i] == ',' && Balance(s, i, '{', '}') == 0 && Balance(s, i, '(', ')') == 0
  }

  /** The place behind token number `k`. */
  function EndOf(tokens: seq<string>, k: nat): nat
    requires k < |tokens|
  {
    |Join(tokens[..k + 1])|
  }

  /** The cuts before `i` are exactly the ends of all tokens but the last. */
  ghost predicate CutsTo(s: string, i: nat, tokens: seq<string>)
    requires i <= |s| && tokens != []
  {
    && (forall k :: 0 <= k < |tokens| - 1 ==> EndOf(tokens, k) < i && TopLevelComma(s, EndOf(tokens, k)))
    && (forall j :: 0 <= j < i && TopLevelComma(s, j) ==> exists k :: 0 <= k < |tokens| - 1 && EndOf(tokens, k) == j)
  }

  lemma EndsSame(a: seq<string>, b: seq<string>, n: nat)
    requires n <= |a| && n <= |b| && a[..n] == b[..n]
    ensures forall k :: 0 <= k < n ==> EndOf(a, k) == EndOf(b, k)
  {
    forall k | 0 <= k < n ensures EndOf(a, k) == EndOf(b, k) {
      assert a[..k + 1] == a[..n][..k + 1] && b[..k + 1] == b[..n][..k + 1];
    }
  }

  lemma CutsGrow(s: string, i: nat, tokens: seq<string>, token: string, c: string)
    requires i < |s| && CutsTo(s, i, tokens + [token]) && !TopLevelComma(s, i)
    ensures CutsTo(s, i + 1, tokens + [token + c])
  {
    var a, b := tokens + [token], tokens + [token + c];
    EndsSame(a, b, |tokens|);
    forall j | 0 <= j < i + 1 && TopLevelComma(s, j) ensures exists k :: 0 <= k < |b| - 1 && EndOf(b, k) == j {
      var k :| 0 <= k < |a| - 1 && EndOf(a, k) == j;
      assert EndOf(b, k) == j;
    }
  }

  lemma CutsCut(s: string, i: nat, tokens: seq<string>)
    requires i < |s| && tokens != [] && CutsTo(s, i, tokens) && TopLevelComma(s, i) && |Join(tokens)| == i
    ensures CutsTo(s, i + 1, tokens + [""])
  {
    var b := tokens + [""];
    EndsSame(tokens, b, |tokens|);
    assert tokens[..|tokens| - 1 + 1] == tokens;
    assert EndOf(b, |tokens| - 1) == i;
    forall j | 0 <= j < i + 1 && TopLevelComma(s, j) ensures exists k :: 0 <= k < |b| - 1 && EndOf(b, k) == j {
      if j < i {
        var k :| 0 <= k < |tokens| - 1 && EndOf(tokens, k) == j;
        assert EndOf(b, k) == j;
      }
    }
  }

  lemma {:induction false} SplitLoopCuts(s: string, i: nat, token: string, tokens: seq<string>)
    requires i <= |s| && CutsTo(s, i, tokens + [token]) && |Join(tokens + [token])| == i
    ensures var r := SplitLoop(s, i, Balance(s, i, '{', '}'), Balance(s, i, '(', ')'), token, tokens);
            r != [] && CutsTo(s, |s|, r)
    decreases |s| - i
  {
    if i < |s| {
      var p, c := Balance(s, i, '{', '}'), Balance(s, i, '(', ')');
      assert Depth(p, s[i], '{', '}') == Balance(s, i + 1, '{', '}');
      assert Depth(c, s[i], '(', ')') == Balance(s, i + 1, '(', ')');
      if TopLevelComma(s, i) {
        CutsCut(s, i, tokens + [token]);
        JoinLast(tokens + [token], "");
        SplitLoopCuts(s, i + 1, "", tokens + [token]);
      } else {
        CutsGrow(s, i, tokens, token, [s[i]]);
        JoinExtend(tokens, token, [s[i]]);
        SplitLoopCuts(s, i + 1, token + [s[i]], tokens);
      }
    }
  }

  /** A string is cut exactly at the commas before which braces and parentheses are balanced. */
  lemma SplitExact(s: string)
    ensures Split(s) != [] && Join(Split(s)) == s && CutsTo(s, |s|, Split(s))
  {
    SplitJoin(s);
    assert [] + [""] == [""];
    SplitLoopCuts(s, 0, "", []);
  }

  /** Nothing in `t` is cut. */
  predicate Quiet(t: string) {
    ScanText(t, 0, 0).quiet
  }

  lemma {:induction false} LoopQuiet(s: string, i: nat, p: int, c: int, token: string, tokens: seq<string>)
    requires i <= |s| && ScanText(token, 0, 0) == Scan(true, p, c) && forall t :: t in tokens ==> Quiet(t)
    ensures forall t :: t in SplitLoop(s, i, p, c, token, tokens) ==> Quiet(t)
    decreases |s| - i
  {
    if i < |s| {
      var q, d := Depth(p, s[i], '{', '}'), Depth(c, s[i], '(', ')');
      ScanAppend(token, [s[i]], 0, 0);
      assert [s[i]][1..] == "";
      if q == 0 && d == 0 && s[i] == ',' {
        LoopQuiet(s, i + 1, q, d, "", tokens + [token]);
      } else {
        LoopQuiet(s, i + 1, q, d, token + [s[i]], tokens);
      }
    }
  }

  /** A token is not cut again. */
  lemma TokenWhole(s: string, t: string)
    requires t in Split(s)
    ensures Split(t) == [t] && |t| <= |s|
  {
    LoopQuiet(s, 0, 0, 0, "", []);
    SplitQuiet(t, 0, t, 0, 0, "", []);
    assert "" + t == t;
    SplitJoin(s);
    var k :| 0 <= k < |Split(s)| && Split(s)[k] == t;
    TokenLength(Split(s), k);
  }

  // ---------- which strings are accepted, and for what ----------

  /** `n` is the node that `s` stands for: its name and parameters, its children in the order of their
      tokens, and the factory creates it and all nodes below it. */
  ghost predicate IsNode(f: Factory, s: string, n: Node, filter: bool)
    decreases |s|, 0
  {
    && n.name == Name(s) && n.parameters == Parameters(s)
    && (if filter then f.filter(n) else f.condition(n))
    && match InnerText(s)
       case NoInner => n.children == []
       case Unclosed => false
       case Inner(text) => AreNodes(f, text, n.children, filter || n.name == "Filter")
  }

  ghost predicate AreNodes(f: Factory, s: string, ns: seq<Node>, filter: bool)
    decreases |s|, 1
  {
    |ns| == |Split(s)| &&
    forall k :: 0 <= k < |ns| ==> |Split(s)[k]| <= |s| && IsNode(f, Split(s)[k], ns[k], filter)
  }

  /** The children of a string that is not cut. */
  function Children(f: Factory, s: string, filter: bool): Result<seq<Node>> {
    match InnerText(s)
    case NoInner => Ok([])
    case Unclosed => Err(MissingBrace)
    case Inner(text) => ParseConditions(f, text, filter || Name(s) == "Filter")
  }

  lemma ChildrenRead(f: Factory, s: string)
    ensures InnerFilters(f, s) == Children(f, s, true) && InnerConditions(f, s) == Children(f, s, false)
  {
    match InnerText(s) {
      case Inner(text) => FilterCopiesAgree(f, text);
      case _ =>
    }
  }

  lemma {:induction false} ChildrenAccepted(f: Factory, s: string, ns: seq<Node>, filter: bool)
    ensures Children(f, s, filter) == Ok(ns) <==>
            match InnerText(s)
            case NoInner => ns == []
            case Unclosed => false
            case Inner(text) => AreNodes(f, text, ns, filter || Name(s) == "Filter")
    decreases |s|, 0, 0
  {
    match InnerText(s) {
      case Inner(text) => Accepted(f, text, ns, filter || Name(s) == "Filter");
      case _ =>
    }
  }

  lemma {:induction false} AcceptedOne(f: Factory, s: string, ns: seq<Node>, filter: bool)
    requires Split(s) == [s]
    ensures ParseConditions(f, s, filter) == Ok(ns) <==> |ns| == 1 && IsNode(f, s, ns[0], filter)
    decreases |s|, 1, 0
  {
    ChildrenRead(f, s);
    var r := Children(f, s, filter);
    if r.Ok? { ChildrenAccepted(f, s, r.value, filter); }
    if |ns| == 1 {
      var n := ns[0];
      ChildrenAccepted(f, s, n.children, filter);
      assert ns == [n] && n == Node(n.name, n.parameters, n.children);
    }
  }

  lemma {:induction false} AcceptedTokens(f: Factory, tokens: seq<string>, ns: seq<Node>, filter: bool, bound: nat)
    requires forall t :: t in tokens ==> |t| < bound && Split(t) == [t]
    ensures ConditionTokens(f, tokens, filter, bound) == Ok(ns) <==>
            |ns| == |tokens| && forall k :: 0 <= k < |ns| ==> IsNode(f, tokens[k], ns[k], filter)
    decreases bound, 0, |tokens|
  {
    if tokens != [] {
      var first, rest := ParseConditions(f, tokens[0], filter), ConditionTokens(f, tokens[1..], filter, bound);
      if first.Ok? { AcceptedOne(f, tokens[0], first.value, filter); }
      if rest.Ok? { AcceptedTokens(f, tokens[1..], rest.value, filter, bound); }
      if ns != [] {
        AcceptedOne(f, tokens[0], ns[..1], filter);
        AcceptedTokens(f, tokens[1..], ns[1..], filter, bound);
        assert ns == ns[..1] + ns[1..];
      }
    }
  }

  /** For every string: exactly these nodes are read from it, or none if there are none. */
  lemma {:induction false} Accepted(f: Factory, s: string, ns: seq<Node>, filter: bool)
    ensures ParseConditions(f, s, filter) == Ok(ns) <==> AreNodes(f, s, ns, filter)
    decreases |s|, 2, 0
  {
    SplitJoin(s);
    SplitShorter(s);
    forall t | t in Split(s) ensures Split(t) == [t] && |t| <= |s| { TokenWhole(s, t); }
    if |Split(s)| == 1 {
      assert Split(s) == [s];
      AcceptedOne(f, s, ns, filter);
    } else {
      AcceptedTokens(f, Split(s), ns, filter, |s|);
    }
  }

  /** The whole parser, on any string: the tree that the string stands for, if it stands for one. */
  lemma ParseExact(f: Factory, s: string, n: Node)
    ensures Parse(f, s) == Ok(n) <==>
            var t := EraseAllSpaces(s); IsNode(f, t, n, false) && !('(' !in t && n.name == "Filter")
  {
    var t := EraseAllSpaces(s);
    InnerExact(t);
    ChildrenRead(f, t);
    var r := Children(f, t, false);
    if r.Ok? { ChildrenAccepted(f, t, r.value, false); }
    ChildrenAccepted(f, t, n.children, false);
    assert n == Node(n.name, n.parameters, n.children);
  }

  // ---------- which error the others give ----------

  /** The error of a string that is not cut: a missing ")", else the first error among its children, else the
      factory's refusal. */
  lemma ErrorOfOne(f: Factory, s: string, filter: bool)
    requires Split(s) == [s]
    ensures var r := ParseConditions(f, s, filter);
      match Children(f, s, filter)
      case Err(e) => r == Err(e)
      case Ok(ns) =>
        var n := Node(Name(s), Parameters(s), ns);
        if filter then !f.filter(n) ==> r == Err(NoFilter(Name(s)))
        else !f.condition(n) ==> r == Err(NoCondition(Name(s)))
  {
    ChildrenRead(f, s);
  }

  /** Several tokens give the error of the first one that has an error. */
  lemma {:induction false} ErrorOfTokens(f: Factory, tokens: seq<string>, filter: bool, bound: nat, k: nat)
    requires (forall t :: t in tokens ==> |t| < bound) && k < |tokens|
    requires forall j :: 0 <= j < k ==> ParseConditions(f, tokens[j], filter).Ok?
    requires ParseConditions(f, tokens[k], filter).Err?
    ensures ConditionTokens(f, tokens, filter, bound) == ParseConditions(f, tokens[k], filter)
    decreases |tokens|
  {
    if k > 0 { ErrorOfTokens(f, tokens[1..], filter, bound, k - 1); }
  }

  lemma FirstError(f: Factory, s: string, filter: bool, k: nat)
    requires |Split(s)| > 1 && k < |Split(s)|
    requires forall j :: 0 <= j < k ==> ParseConditions(f, Split(s)[j], filter).Ok?
    requires ParseConditions(f, Split(s)[k], filter).Err?
    ensures ParseConditions(f, s, filter) == ParseConditions(f, Split(s)[k], filter)
  {
    SplitShorter(s);
    ErrorOfTokens(f, Split(s), filter, |s|, k);
  }

  /** The error of the whole string.  In particular every string with a "(" and without any ")" is refused. */
  lemma RootError(f: Factory, s: string)
    ensures var t := EraseAllSpaces(s); var r := Parse(f, s);
      && ('(' !in t && Name(t) == "Filter" ==> r == Err(MissingDetails))
      && ('(' in s && ')' !in s ==> r == Err(MissingBrace))
      && ('(' in t || Name(t) != "Filter" ==>
            match Children(f, t, false)
            case Err(e) => r == Err(e)
            case Ok(ns) => !f.condition(Node(Name(t), Parameters(t), ns)) ==> r == Err(NoCondition(Name(t))))
  {
    var t := EraseAllSpaces(s);
    EraseExact(s, "");
    InnerExact(t);
    ChildrenRead(f, t);
  }
}

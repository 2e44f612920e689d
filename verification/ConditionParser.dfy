/** The condition parser (ConditionParser.h, IParser.h): strings such as `Name{parameters}(child,child)`
    become trees of conditions and filters. */
module ConditionParser {
  import opened Wrappers

  datatype Error = MissingBrace | NoFilter(name: string) | NoCondition(name: string) | MissingDetails | ExpectedBrace

  datatype Result<+T> = Ok(value: T) | Err(error: Error)

  /** A condition or a filter.  The children of a condition named FILTER_NAME and of every filter
      are filters, those of any other condition are conditions. */
  datatype Node = Node(name: string, parameters: string, children: seq<Node>)

  const FILTER_NAME := "Filter"

  /** IAIFactory: for which nodes it creates an object. */
  datatype Factory = Factory(filter: Node -> bool, condition: Node -> bool)

  // ---------- std::string ----------

  function Find(s: string, c: char): (r: Option<nat>)
    ensures r.Some? ==> r.value < |s| && s[r.value] == c && forall j :: 0 <= j < r.value ==> s[j] != c
    ensures r.None? ==> forall j :: 0 <= j < |s| ==> s[j] != c
  {
    if s == "" then None
    else if s[0] == c then Some(0)
    else
      match Find(s[1..], c)
      case None => None
      case Some(i) => Some(i + 1)
  }

  function FindLast(s: string, c: char): (r: Option<nat>)
    ensures r.Some? ==> r.value < |s| && s[r.value] == c && forall j :: r.value < j < |s| ==> s[j] != c
    ensures r.None? ==> forall j :: 0 <= j < |s| ==> s[j] != c
  {
    if s == "" then None
    else if s[|s| - 1] == c then Some(|s| - 1)
    else FindLast(s[..|s| - 1], c)
  }

  /** substr(from, n): the count is unsigned, so a negative one means "to the end". */
  function SubString(s: string, from: nat, n: int): string
    requires from <= |s|
  {
    if n < 0 || from + n > |s| then s[from..] else s[from..from + n]
  }

  function EraseAllSpaces(s: string): string {
    if s == "" then "" else (if s[0] == ' ' then "" else [s[0]]) + EraseAllSpaces(s[1..])
  }

  /** IParser::getBetween for "{" and "}". */
  function GetBetween(s: string): string {
    match Find(s, '{')
    case None => ""
    case Some(start) =>
      match Find(s, '}')
      case None => ""
      case Some(end) => if end == start + 1 then "" else SubString(s, start + 1, end - start - 1)
  }

  // ---------- splitting at top-level commas ----------

  function Depth(d: int, c: char, open: char, close: char): int {
    if c == open then d + 1 else if c == close then d - 1 else d
  }

  /** The loop of splitConditions from character `i` on. */
  function SplitLoop(s: string, i: nat, inParameter: int, inChildren: int, token: string,
      tokens: seq<string>): seq<string>
    requires i <= |s|
    decreases |s| - i
  {
    if i == |s| then tokens + [token]
    else
      var p, c := Depth(inParameter, s[i], '{', '}'), Depth(inChildren, s[i], '(', ')');
      if p == 0 && c == 0 && s[i] == ',' then SplitLoop(s, i + 1, p, c, "", tokens + [token])
      else SplitLoop(s, i + 1, p, c, token + [s[i]], tokens)
  }

  function Split(s: string): seq<string> {
    SplitLoop(s, 0, 0, 0, "", [])
  }

  function Join(tokens: seq<string>): string
    requires tokens != []
  {
    if |tokens| == 1 then tokens[0] else tokens[0] + "," + Join(tokens[1..])
  }

  lemma {:induction false} JoinLast(tokens: seq<string>, t: string)
    requires tokens != []
    ensures Join(tokens + [t]) == Join(tokens) + "," + t
  {
    if |tokens| == 1 {
      assert (tokens + [t])[1..] == [t];
    } else {
      assert (tokens + [t])[1..] == tokens[1..] + [t];
      JoinLast(tokens[1..], t);
    }
  }

  lemma JoinExtend(tokens: seq<string>, t: string, more: string)
    ensures Join(tokens + [t + more]) == Join(tokens + [t]) + more
  {
    if tokens != [] {
      JoinLast(tokens, t);
      JoinLast(tokens, t + more);
    }
  }

  lemma {:induction false} SplitLoopJoin(s: string, i: nat, p: int, c: int, token: string, tokens: seq<string>)
    requires i <= |s|
    ensures |SplitLoop(s, i, p, c, token, tokens)| > |tokens|
    ensures Join(SplitLoop(s, i, p, c, token, tokens)) == Join(tokens + [token]) + s[i..]
    decreases |s| - i
  {
    if i < |s| {
      var q, d := Depth(p, s[i], '{', '}'), Depth(c, s[i], '(', ')');
      assert s[i..] == [s[i]] + s[i + 1..];
      if q == 0 && d == 0 && s[i] == ',' {
        SplitLoopJoin(s, i + 1, q, d, "", tokens + [token]);
        JoinLast(tokens + [token], "");
      } else {
        SplitLoopJoin(s, i + 1, q, d, token + [s[i]], tokens);
        JoinExtend(tokens, token, [s[i]]);
      }
    }
  }

  /** Splitting loses nothing. */
  lemma SplitJoin(s: string)
    ensures Split(s) != [] && Join(Split(s)) == s
  {
    SplitLoopJoin(s, 0, 0, 0, "", []);
    assert [] + [""] == [""] && "" + s == s;
  }

  lemma {:induction false} TokenLength(tokens: seq<string>, k: nat)
    requires k < |tokens|
    ensures |tokens[k]| <= |Join(tokens)| && (|tokens| > 1 ==> |tokens[k]| < |Join(tokens)|)
  {
    if |tokens| > 1 && k > 0 { TokenLength(tokens[1..], k - 1); }
  }

  lemma SplitShorter(s: string)
    ensures |Split(s)| > 1 ==> forall t :: t in Split(s) ==> |t| < |s|
  {
    SplitJoin(s);
    forall t | t in Split(s) && |Split(s)| > 1 ensures |t| < |s| {
      var k :| 0 <= k < |Split(s)| && Split(s)[k] == t;
      TokenLength(Split(s), k);
    }
  }

  // ---------- parsing ----------

  /** What comes before the first of "(" and "{", if that is where the name ends. */
  function NameEnd(s: string): Option<nat> {
    if ParametersFirst(s) then Find(s, '{') else Find(s, '(')
  }

  /** Parameters are looked for unless a "(" comes before any "{". */
  predicate ParametersFirst(s: string) {
    var n, b := Find(s, '('), Find(s, '{');
    n.None? || (b.Some? && b.value < n.value)
  }

  function Name(s: string): string {
    match NameEnd(s)
    case None => s
    case Some(n) => s[..n]
  }

  function Parameters(s: string): string {
    if ParametersFirst(s) then GetBetween(s) else ""
  }

  datatype Inner = NoInner | Unclosed | Inner(text: string)

  /** What stands between the first "(" and the last ")". */
  function InnerText(s: string): (r: Inner)
    ensures r.Inner? ==> |r.text| < |s|
  {
    match Find(s, '(')
    case None => NoInner
    case Some(n) =>
      match FindLast(s, ')')
      case None => Unclosed
      case Some(r) => Inner(SubString(s, n + 1, r - n - 1))
  }

  function MakeFilter(f: Factory, n: Node): Result<seq<Node>> {
    if f.filter(n) then Ok([n]) else Err(NoFilter(n.name))
  }

  function MakeCondition(f: Factory, n: Node): Result<seq<Node>> {
    if f.condition(n) then Ok([n]) else Err(NoCondition(n.name))
  }

  /** Both in turn, up to the first error. */
  function Append(first: Result<seq<Node>>, others: Result<seq<Node>>): Result<seq<Node>> {
    match (first, others)
    case (Err(e), _) => Err(e)
    case (Ok(_), Err(e)) => Err(e)
    case (Ok(x), Ok(y)) => Ok(x + y)
  }

  function OneFilter(f: Factory, s: string, children: Result<seq<Node>>): Result<seq<Node>> {
    match children
    case Err(e) => Err(e)
    case Ok(ns) => MakeFilter(f, Node(Name(s), Parameters(s), ns))
  }

  function OneCondition(f: Factory, s: string, children: Result<seq<Node>>): Result<seq<Node>> {
    match children
    case Err(e) => Err(e)
    case Ok(ns) => MakeCondition(f, Node(Name(s), Parameters(s), ns))
  }

  /** fillInnerFilters: the filters that are added to the context. */
  function ParseFilters(f: Factory, s: string): Result<seq<Node>>
    decreases |s|, 1, 0
  {
    SplitShorter(s);
    if |Split(s)| > 1 then FilterTokens(f, Split(s), |s|) else OneFilter(f, s, InnerFilters(f, s))
  }

  function InnerFilters(f: Factory, s: string): Result<seq<Node>>
    decreases |s|, 0, 0
  {
    match InnerText(s)
    case Unclosed => Err(MissingBrace)
    case NoInner => Ok([])
    case Inner(text) => ParseFilters(f, text)
  }

  function FilterTokens(f: Factory, tokens: seq<string>, bound: nat): Result<seq<Node>>
    requires forall t :: t in tokens ==> |t| < bound
    decreases bound, 0, |tokens|
  {
    if tokens == [] then Ok([]) else Append(ParseFilters(f, tokens[0]), FilterTokens(f, tokens[1..], bound))
  }

  /** fillInnerConditions: what is added to the conditions of the context, or to its filters if
      `filter` is set. */
  function ParseConditions(f: Factory, s: string, filter: bool): Result<seq<Node>>
    decreases |s|, 1, 0
  {
    SplitShorter(s);
    if |Split(s)| > 1 then ConditionTokens(f, Split(s), filter, |s|)
    else if filter then OneFilter(f, s, InnerFilters(f, s))
    else OneCondition(f, s, InnerConditions(f, s))
  }

  function InnerConditions(f: Factory, s: string): Result<seq<Node>>
    decreases |s|, 0, 0
  {
    match InnerText(s)
    case Unclosed => Err(MissingBrace)
    case NoInner => Ok([])
    case Inner(text) => ParseConditions(f, text, Name(s) == FILTER_NAME)
  }

  function ConditionTokens(f: Factory, tokens: seq<string>, filter: bool, bound: nat): Result<seq<Node>>
    requires forall t :: t in tokens ==> |t| < bound
    decreases bound, 0, |tokens|
  {
    if tokens == [] then Ok([])
    else Append(ParseConditions(f, tokens[0], filter), ConditionTokens(f, tokens[1..], filter, bound))
  }

  /** getCondition, on the string without spaces. */
  function ParseRoot(f: Factory, s: string): Result<Node> {
    if InnerText(s) == NoInner && Name(s) == FILTER_NAME then Err(MissingDetails)
    else
      match InnerConditions(f, s)
      case Err(e) => Err(e)
      case Ok(children) => Root(f, Node(Name(s), Parameters(s), children))
  }

  function Root(f: Factory, n: Node): Result<Node> {
    if f.condition(n) then Ok(n) else Err(NoCondition(n.name))
  }

  /** The parser as a whole. */
  function Parse(f: Factory, s: string): Result<Node> {
    ParseRoot(f, EraseAllSpaces(s))
  }

  // ---------- the code, with its loop and its contexts ----------

  /** FilterFactoryContext: collects the filters one level down. */
  class FilterContext {
    const parameters: string
    var filters: seq<Node>

    constructor (parameters: string)
      ensures this.parameters == parameters && filters == []
    {
      this.parameters := parameters;
      filters := [];
    }
  }

  /** ConditionFactoryContext: collects conditions, or filters if `filter` is set. */
  class ConditionContext {
    const parameters: string
    const filter: bool
    var conditions: seq<Node>
    var filters: seq<Node>

    constructor (parameters: string, filter: bool)
      ensures this.parameters == parameters && this.filter == filter && conditions == [] && filters == []
    {
      this.parameters := parameters;
      this.filter := filter;
      conditions, filters := [], [];
    }

    function Collected(): seq<Node>
      reads this
    {
      if filter then filters else conditions
    }
  }

  class Parser {
    const factory: Factory
    const conditionString: string
    var error: Option<Error>

    constructor (factory: Factory, conditionString: string)
      ensures this.factory == factory && this.conditionString == EraseAllSpaces(conditionString)
    {
      this.factory := factory;
      this.conditionString := EraseAllSpaces(conditionString);
      error := None;
    }

    method SplitConditions(s: string) returns (tokens: seq<string>)
      ensures tokens == Split(s)
    {
      var inParameter, inChildren, token := 0, 0, "";
      tokens := [];
      for i := 0 to |s|
        invariant SplitLoop(s, i, inParameter, inChildren, token, tokens) == Split(s)
      {
        if s[i] == '{' {
          inParameter := inParameter + 1;
        } else if s[i] == '}' {
          inParameter := inParameter - 1;
        } else if s[i] == '(' {
          inChildren := inChildren + 1;
        } else if s[i] == ')' {
          inChildren := inChildren - 1;
        }
        if inParameter == 0 && inChildren == 0 && s[i] == ',' {
          tokens := tokens + [token];
          token := "";
        } else {
          token := token + [s[i]];
        }
      }
      tokens := tokens + [token];
    }

    /** Name and parameters; a missing "}" is noted but does not stop the parser. */
    method ReadHead(s: string) returns (name: string, parameters: string)
      modifies this
      ensures name == Name(s) && parameters == Parameters(s)
      ensures error == if |name| < |s| && s[|name|] == '{' && '}' !in s then Some(ExpectedBrace) else old(error)
    {
      parameters := "";
      var n := Find(s, '(');
      if n == None || (Find(s, '{').Some? && Find(s, '{').value < n.value) {
        if Find(s, '{').Some? && Find(s, '}') == None { error := Some(ExpectedBrace); }
        parameters := GetBetween(s);
        n := Find(s, '{');
      }
      name := if n == None then s else s[..n.value];
    }

    method FillInnerFilters(ctx: FilterContext, s: string) returns (ok: bool)
      modifies this, ctx
      ensures match ParseFilters(factory, s)
              case Ok(fs) => ok && ctx.filters == old(ctx.filters) + fs
              case Err(e) => !ok && error == Some(e)
      decreases |s|, 1
    {
      var tokens := SplitConditions(s);
      SplitShorter(s);
      if |tokens| > 1 {
        ok := FillFilterTokens(ctx, tokens, |s|);
      } else {
        var name, parameters := ReadHead(s);
        var inner := new FilterContext(parameters);
        ok := ReadInnerFilters(inner, s);
        if !ok { return; }
        var c := CreateFilter(name, parameters, inner.filters);
        if c == None { return false; }
        ctx.filters := ctx.filters + [c.value];
      }
    }

    method FillFilterTokens(ctx: FilterContext, tokens: seq<string>, ghost bound: nat) returns (ok: bool)
      requires forall t :: t in tokens ==> |t| < bound
      modifies this, ctx
      ensures match FilterTokens(factory, tokens, bound)
              case Ok(fs) => ok && ctx.filters == old(ctx.filters) + fs
              case Err(e) => !ok && error == Some(e)
      decreases bound, 0
    {
      ghost var done: seq<Node>, all := [], FilterTokens(factory, tokens, bound);
      AppendNothing(all);
      for i := 0 to |tokens|
        invariant ctx.filters == old(ctx.filters) + done
        invariant Append(Ok(done), FilterTokens(factory, tokens[i..], bound)) == all
      {
        assert tokens[i] in tokens && tokens[i..][1..] == tokens[i + 1..];
        ghost var one := ParseFilters(factory, tokens[i]);
        AppendStep(done, one, FilterTokens(factory, tokens[i + 1..], bound));
        ok := FillInnerFilters(ctx, tokens[i]);
        if !ok { return; }
        done := done + one.value;
      }
      assert done + [] == done;
      return true;
    }

    /** What stands in the parentheses goes to the inner context. */
    method ReadInnerFilters(inner: FilterContext, s: string) returns (ok: bool)
      requires inner.filters == []
      modifies this, inner
      ensures match InnerFilters(factory, s)
              case Ok(fs) => ok && inner.filters == fs
              case Err(e) => !ok && error == Some(e)
      decreases |s|, 0
    {
      match InnerText(s) {
        case Unclosed =>
          error := Some(MissingBrace);
          return false;
        case NoInner =>
          return true;
        case Inner(text) =>
          ok := FillInnerFilters(inner, text);
      }
    }

    method CreateFilter(name: string, parameters: string, filters: seq<Node>) returns (c: Option<Node>)
      modifies this
      ensures match MakeFilter(factory, Node(name, parameters, filters))
              case Ok(fs) => c.Some? && fs == [c.value]
              case Err(e) => c == None && error == Some(e)
    {
      if !factory.filter(Node(name, parameters, filters)) {
        error := Some(NoFilter(name));
        return None;
      }
      return Some(Node(name, parameters, filters));
    }

    method CreateCondition(name: string, parameters: string, children: seq<Node>) returns (c: Option<Node>)
      modifies this
      ensures match MakeCondition(factory, Node(name, parameters, children))
              case Ok(ns) => c.Some? && ns == [c.value]
              case Err(e) => c == None && error == Some(e)
    {
      if !factory.condition(Node(name, parameters, children)) {
        error := Some(NoCondition(name));
        return None;
      }
      return Some(Node(name, parameters, children));
    }

    method FillInnerConditions(ctx: ConditionContext, s: string) returns (ok: bool)
      modifies this, ctx
      ensures match ParseConditions(factory, s, ctx.filter)
              case Ok(ns) => ok && ctx.Collected() == old(ctx.Collected()) + ns
              case Err(e) => !ok && error == Some(e)
      decreases |s|, 2
    {
      var tokens := SplitConditions(s);
      SplitShorter(s);
      if |tokens| > 1 {
        ok := FillConditionTokens(ctx, tokens, |s|);
      } else {
        var name, parameters := ReadHead(s);
        // filter condition is a little bit special
        if ctx.filter {
          var inner := new FilterContext(parameters);
          ok := ReadInnerFilters(inner, s);
          if !ok { return; }
          var c := CreateFilter(name, parameters, inner.filters);
          if c == None { return false; }
          ctx.filters := ctx.filters + [c.value];
        } else {
          var inner := new ConditionContext(parameters, name == FILTER_NAME);
          ok := ReadInnerConditions(inner, s);
          if !ok { return; }
          var c := CreateCondition(name, parameters, inner.Collected());
          if c == None { return false; }
          ctx.conditions := ctx.conditions + [c.value];
        }
      }
    }

    method FillConditionTokens(ctx: ConditionContext, tokens: seq<string>, ghost bound: nat) returns (ok: bool)
      requires forall t :: t in tokens ==> |t| < bound
      modifies this, ctx
      ensures match ConditionTokens(factory, tokens, ctx.filter, bound)
              case Ok(ns) => ok && ctx.Collected() == old(ctx.Collected()) + ns
              case Err(e) => !ok && error == Some(e)
      decreases bound, 0
    {
      ghost var filter, start, done: seq<Node> := ctx.filter, ctx.Collected(), [];
      ghost var all := ConditionTokens(factory, tokens, filter, bound);
      AppendNothing(all);
      for i := 0 to |tokens|
        invariant ctx.Collected() == start + done
        invariant Append(Ok(done), ConditionTokens(factory, tokens[i..], filter, bound)) == all
      {
        assert tokens[i] in tokens && tokens[i..][1..] == tokens[i + 1..];
        ghost var one := ParseConditions(factory, tokens[i], filter);
        AppendStep(done, one, ConditionTokens(factory, tokens[i + 1..], filter, bound));
        ok := FillInnerConditions(ctx, tokens[i]);
        if !ok { return; }
        Regroup(start, done, one.value);
        done := done + one.value;
      }
      assert done + [] == done;
      return true;
    }

    method ReadInnerConditions(inner: ConditionContext, s: string) returns (ok: bool)
      requires inner.filter == (Name(s) == FILTER_NAME) && inner.Collected() == []
      modifies this, inner
      ensures match InnerConditions(factory, s)
              case Ok(ns) => ok && inner.Collected() == ns
              case Err(e) => !ok && error == Some(e)
      decreases |s|, 0
    {
      match InnerText(s) {
        case Unclosed =>
          error := Some(MissingBrace);
          return false;
        case NoInner =>
          return true;
        case Inner(text) =>
          ok := FillInnerConditions(inner, text);
      }
    }

    method GetCondition() returns (condition: Option<Node>)
      modifies this
      ensures match ParseRoot(factory, conditionString)
              case Ok(n) => condition == Some(n)
              case Err(e) => condition == None && error == Some(e)
    {
      error := None;
      var s := conditionString;
      var name, parameters := ReadHead(s);
      if InnerText(s) == NoInner && name == FILTER_NAME {
        error := Some(MissingDetails);
        return None;
      }
      var ctx := new ConditionContext(parameters, name == FILTER_NAME);
      var ok := ReadInnerConditions(ctx, s);
      if !ok { return None; }
      condition := CreateCondition(name, parameters, ctx.Collected());
    }
  }

  lemma Regroup(a: seq<Node>, b: seq<Node>, c: seq<Node>)
    ensures (a + b) + c == a + (b + c)
  {
  }

  lemma AppendNothing(r: Result<seq<Node>>)
    ensures Append(Ok([]), r) == r
  {
    if r.Ok? { assert [] + r.value == r.value; }
  }

  lemma AppendStep(done: seq<Node>, one: Result<seq<Node>>, rest: Result<seq<Node>>)
    ensures one.Ok? ==> Append(Ok(done), Append(one, rest)) == Append(Ok(done + one.value), rest)
    ensures one.Err? ==> Append(Ok(done), Append(one, rest)) == one
  {
    if one.Ok? && rest.Ok? {
      assert (done + one.value) + rest.value == done + (one.value + rest.value);
    }
  }
}

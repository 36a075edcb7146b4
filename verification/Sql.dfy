/**
 The SQL text the client sends, and a parser for it.

 Literals and delimited identifiers are escaped by doubling the quote character, as sections 5.3 and 5.2 of
 SQL-92 (ISO/IEC 9075:1992) prescribe.  The parser shows that nothing a caller passes can change the shape
 of the call: it recovers exactly the arguments that were rendered.
 */
module Sql {
  import opened Prelude
  import opened Decimal

  datatype Value = Null | Bool(flag: bool) | Int(n: int) | Text(text: string) | List(items: seq<Value>)

  // ------------------------------------------------------------------ printing

  /** s with every occurrence of q doubled. */
  function Doubled(s: string, q: char): string {
    if s == [] then []
    else if s[0] == q then [q, q] + Doubled(s[1..], q)
    else [s[0]] + Doubled(s[1..], q)
  }

  function Quoted(s: string, q: char): string { [q] + Doubled(s, q) + [q] }

  function QuoteLiteral(s: string): string { Quoted(s, '\'') }

  function QuoteIdentifier(s: string): string { Quoted(s, '"') }

  function RenderValue(v: Value): string
    decreases v
  {
    match v
    case Null => "NULL"
    case Bool(flag) => if flag then "true" else "false"
    case Int(n) => IntText(n)
    case Text(text) => QuoteLiteral(text)
    case List(items) => "[" + Join(RenderEach(items)) + "]"
  }

  function RenderEach(items: seq<Value>): (r: seq<string>)
    ensures |r| == |items|
    decreases items
  {
    if items == [] then [] else [RenderValue(items[0])] + RenderEach(items[1..])
  }

  /** ", ".join(parts) */
  function Join(parts: seq<string>): string {
    if parts == [] then ""
    else if |parts| == 1 then parts[0]
    else parts[0] + ", " + Join(parts[1..])
  }

  function RenderPair(pair: (string, Value)): string {
    QuoteIdentifier(pair.0) + " := " + RenderValue(pair.1)
  }

  function RenderPairs(pairs: seq<(string, Value)>): seq<string> {
    if pairs == [] then [] else [RenderPair(pairs[0])] + RenderPairs(pairs[1..])
  }

  /** The named arguments that are not None. */
  function Present(named: seq<(string, Value)>): seq<(string, Value)> {
    if named == [] then []
    else if named[0].1.Null? then Present(named[1..])
    else [named[0]] + Present(named[1..])
  }

  function CallText(f: string, args: seq<Value>, named: seq<(string, Value)>): string {
    "SELECT * FROM " + f + "(" + Join(RenderEach(args) + RenderPairs(Present(named))) + ")"
  }

  /** The text of a table-function call: render the positionals, then append each named value that is set. */
  method TableFunctionSql(f: string, args: seq<Value>, named: seq<(string, Value)>) returns (sql: string)
    ensures sql == CallText(f, args, named)
  {
    var rendered := RenderEach(args);
    assert named[..0] == [];
    for i := 0 to |named|
      invariant rendered == RenderEach(args) + RenderPairs(Present(named[..i]))
    {
      PresentGrows(named, i);
      if !named[i].1.Null? {
        RenderPairsAppend(Present(named[..i]), named[i]);
        rendered := rendered + [QuoteIdentifier(named[i].0) + " := " + RenderValue(named[i].1)];
        assert rendered == RenderEach(args) + (RenderPairs(Present(named[..i])) + [RenderPair(named[i])]);
      }
    }
    assert named[..|named|] == named;
    sql := "SELECT * FROM " + f + "(" + Join(rendered) + ")";
  }

  lemma {:induction false} PresentAppend(named: seq<(string, Value)>, pair: (string, Value))
    ensures Present(named + [pair]) == Present(named) + (if pair.1.Null? then [] else [pair])
  {
    if named != [] {
      assert (named + [pair])[1..] == named[1..] + [pair];
      PresentAppend(named[1..], pair);
    }
  }

  lemma PresentGrows(named: seq<(string, Value)>, i: nat)
    requires i < |named|
    ensures if named[i].1.Null? then Present(named[..i + 1]) == Present(named[..i])
            else Present(named[..i + 1]) == Present(named[..i]) + [named[i]]
  {
    assert named[..i + 1] == named[..i] + [named[i]];
    PresentAppend(named[..i], named[i]);
  }

  lemma {:induction false} RenderPairsAppend(pairs: seq<(string, Value)>, pair: (string, Value))
    ensures RenderPairs(pairs + [pair]) == RenderPairs(pairs) + [RenderPair(pair)]
  {
    if pairs != [] {
      assert (pairs + [pair])[1..] == pairs[1..] + [pair];
      RenderPairsAppend(pairs[1..], pair);
    }
  }

  // ------------------------------------------------------------------ parsing

  predicate StartsWith(s: string, prefix: string) { |prefix| <= |s| && s[..|prefix|] == prefix }

  /** Consume an exact token. */
  function Expect(s: string, token: string): (r: Option<string>)
    ensures r.Some? ==> |r.value| == |s| - |token|
  {
    if StartsWith(s, token) then Some(s[|token|..]) else None
  }

  /** Consume quoted text after its opening quote: a doubled quote is one character, a single one ends it. */
  function ReadQuoted(s: string, q: char): (r: Option<(string, string)>)
    ensures r.Some? ==> |r.value.1| < |s|
  {
    if s == [] then None
    else if s[0] != q then
      match ReadQuoted(s[1..], q)
      case None => None
      case Some((text, rest)) => Some(([s[0]] + text, rest))
    else if |s| > 1 && s[1] == q then
      match ReadQuoted(s[2..], q)
      case None => None
      case Some((text, rest)) => Some(([q] + text, rest))
    else Some(("", s[1..]))
  }

  function ParseValue(s: string): (r: Option<(Value, string)>)
    ensures r.Some? ==> |r.value.1| < |s|
    decreases |s|, 0
  {
    if s == [] then None
    else if s[0] == '\'' then
      match ReadQuoted(s[1..], '\'')
      case None => None
      case Some((text, rest)) => Some((Text(text), rest))
    else if s[0] == '[' then
      if StartsWith(s, "[]") then Some((List([]), s[2..]))
      else
        match ParseItems(s[1..])
        case None => None
        case Some((items, rest)) => Some((List(items), rest))
    else if StartsWith(s, "NULL") then Some((Null, s[4..]))
    else if StartsWith(s, "true") then Some((Bool(true), s[4..]))
    else if StartsWith(s, "false") then Some((Bool(false), s[5..]))
    else
      match ReadInt(s)
      case None => None
      case Some((n, rest)) => Some((Int(n), rest))
  }

  /** One or more values separated by ", " and closed by "]". */
  function ParseItems(s: string): (r: Option<(seq<Value>, string)>)
    ensures r.Some? ==> |r.value.1| < |s|
    decreases |s|, 1
  {
    match ParseValue(s)
    case None => None
    case Some((item, rest)) =>
      if StartsWith(rest, "]") then Some(([item], rest[1..]))
      else if StartsWith(rest, ", ") then
        match ParseItems(rest[2..])
        case None => None
        case Some((items, rest')) => Some(([item] + items, rest'))
      else None
  }

  datatype Arg = Positional(value: Value) | Named(name: string, value: Value)

  /** A positional value, or a delimited identifier, " := " and a value. */
  function ParseArg(s: string): (r: Option<(Arg, string)>)
    ensures r.Some? ==> |r.value.1| < |s|
  {
    if StartsWith(s, "\"") then
      match ReadQuoted(s[1..], '"')
      case None => None
      case Some((name, rest)) =>
        match Expect(rest, " := ")
        case None => None
        case Some(after) =>
          match ParseValue(after)
          case None => None
          case Some((value, rest')) => Some((Named(name, value), rest'))
    else
      match ParseValue(s)
      case None => None
      case Some((value, rest)) => Some((Positional(value), rest))
  }

  /** One or more arguments separated by ", " and closed by ")" at the end of the text. */
  function ParseArgs(s: string): Option<seq<Arg>>
    decreases |s|
  {
    match ParseArg(s)
    case None => None
    case Some((arg, rest)) =>
      if rest == ")" then Some([arg])
      else if StartsWith(rest, ", ") then
        match ParseArgs(rest[2..])
        case None => None
        case Some(args) => Some([arg] + args)
      else None
  }

  /** The arguments of a call to a known function. */
  function ParseCall(f: string, sql: string): Option<seq<Arg>> {
    match Expect(sql, "SELECT * FROM " + f + "(")
    case None => None
    case Some(rest) => if rest == ")" then Some([]) else ParseArgs(rest)
  }

  // ------------------------------------------------------------------ the parser undoes the printer

  /** What can follow a value in a printed call. */
  predicate Delimited(rest: string) { rest == [] || rest[0] in {',', ']', ')'} }

  lemma {:induction false} ReadQuotedOfDoubled(s: string, q: char, rest: string)
    requires rest == [] || rest[0] != q
    ensures ReadQuoted(Doubled(s, q) + [q] + rest, q) == Some((s, rest))
  {
    var text := Doubled(s, q) + [q] + rest;
    if s == [] {
      assert text == [q] + rest;
    } else {
      ReadQuotedOfDoubled(s[1..], q, rest);
      var tail := Doubled(s[1..], q) + [q] + rest;
      if s[0] == q {
        assert text == [q, q] + tail && text[2..] == tail;
      } else {
        assert text == [s[0]] + tail && text[1..] == tail;
      }
      assert [s[0]] + s[1..] == s;
    }
  }

  /** A token in front of any text is recognised and consumed. */
  lemma TokenRead(token: string, rest: string)
    ensures StartsWith(token + rest, token) && (token + rest)[|token|..] == rest
    ensures token != [] ==> token + rest != [] && (token + rest)[0] == token[0]
  {
    assert (token + rest)[..|token|] == token;
  }

  lemma QuotedRead(text: string, q: char, rest: string)
    requires rest == [] || rest[0] != q
    ensures Quoted(text, q) + rest != [] && (Quoted(text, q) + rest)[0] == q
    ensures ReadQuoted((Quoted(text, q) + rest)[1..], q) == Some((text, rest))
  {
    ReadQuotedOfDoubled(text, q, rest);
    assert (Quoted(text, q) + rest)[1..] == Doubled(text, q) + [q] + rest;
  }

  lemma {:induction false} ValueRoundTrip(v: Value, rest: string)
    requires Delimited(rest)
    ensures ParseValue(RenderValue(v) + rest) == Some((v, rest))
    decreases v
  {
    match v
    case Null => TokenRead("NULL", rest);
    case Bool(flag) => TokenRead(if flag then "true" else "false", rest);
    case Int(n) => IntRead(n, rest);
    case Text(text) => QuotedRead(text, '\'', rest);
    case List(items) =>
      if items == [] {
        TokenRead("[]", rest);
        assert RenderValue(v) == "[]";
      } else {
        ItemsRoundTrip(items, rest);
        ListRead(items, rest);
      }
  }

  lemma IntRead(n: int, rest: string)
    requires Delimited(rest)
    ensures ParseValue(IntText(n) + rest) == Some((Int(n), rest))
  {
    ReadIntOfText(n, rest);
    assert (IntText(n) + rest)[0] == IntText(n)[0];
  }

  lemma ListRead(items: seq<Value>, rest: string)
    requires items != []
    requires ParseItems(Join(RenderEach(items)) + ("]" + rest)) == Some((items, rest))
    ensures ParseValue(RenderValue(List(items)) + rest) == Some((List(items), rest))
  {
    ListText(items, rest);
    OpenBracket(Join(RenderEach(items)) + ("]" + rest));
  }

  lemma ListText(items: seq<Value>, rest: string)
    requires items != []
    ensures var tail := Join(RenderEach(items)) + ("]" + rest);
            RenderValue(List(items)) + rest == ['['] + tail && tail != [] && tail[0] != ']'
  {
    NotClosing(items, "]" + rest);
  }

  lemma OpenBracket(tail: string)
    requires tail != [] && tail[0] != ']' && ParseItems(tail).Some?
    ensures ParseValue(['['] + tail)
            == Some((List(ParseItems(tail).value.0), ParseItems(tail).value.1))
  {
    var s := ['['] + tail;
    assert s[1..] == tail;
    assert s[..2] == ['[', tail[0]];
  }

  /** A printed non-empty list of values does not start with a closing bracket or a double quote. */
  lemma NotClosing(items: seq<Value>, rest: string)
    requires items != []
    ensures Join(RenderEach(items)) != []
    ensures (Join(RenderEach(items)) + rest)[0] !in {']', ')', '"'}
  {
    assert RenderEach(items)[0] == RenderValue(items[0]);
    FirstChar(items[0]);
  }

  lemma FirstChar(v: Value)
    ensures RenderValue(v) != [] && RenderValue(v)[0] !in {']', ')', '"'}
  {
  }

  lemma LastItemRead(s: string, v: Value, rest: string)
    requires ParseValue(s) == Some((v, "]" + rest))
    ensures ParseItems(s) == Some(([v], rest))
  {
    TokenRead("]", rest);
  }

  lemma MoreItemsRead(s: string, v: Value, tail: string, items: seq<Value>, rest: string)
    requires ParseValue(s) == Some((v, ", " + tail)) && ParseItems(tail) == Some((items, rest))
    ensures ParseItems(s) == Some(([v] + items, rest))
  {
    TokenRead(", ", tail);
  }

  lemma JoinCons(part: string, parts: seq<string>)
    ensures Join([part] + parts) == if parts == [] then part else part + ", " + Join(parts)
  {
    assert ([part] + parts)[1..] == parts;
  }

  lemma Regroup<T>(a: seq<T>, b: seq<T>, c: seq<T>, d: seq<T>)
    ensures (a + b + c) + d == a + (b + (c + d))
  {
  }

  /** The text of a non-empty list after its opening bracket: the first value, then the rest of the list. */
  lemma ItemsText(items: seq<Value>, rest: string)
    requires items != []
    ensures Join(RenderEach(items)) + ("]" + rest)
            == if |items| == 1 then RenderValue(items[0]) + ("]" + rest)
               else RenderValue(items[0]) + (", " + (Join(RenderEach(items[1..])) + ("]" + rest)))
  {
    var v, parts := RenderValue(items[0]), RenderEach(items[1..]);
    JoinCons(v, parts);
    Regroup(v, ", ", Join(parts), "]" + rest);
  }

  lemma {:induction false} ItemsRoundTrip(items: seq<Value>, rest: string)
    requires items != [] && Delimited(rest)
    ensures ParseItems(Join(RenderEach(items)) + ("]" + rest)) == Some((items, rest))
    decreases items
  {
    var s := Join(RenderEach(items)) + ("]" + rest);
    ItemsText(items, rest);
    if |items| == 1 {
      ValueRoundTrip(items[0], "]" + rest);
      LastItemRead(s, items[0], rest);
      assert items == [items[0]];
    } else {
      var tail := Join(RenderEach(items[1..])) + ("]" + rest);
      ValueRoundTrip(items[0], ", " + tail);
      ItemsRoundTrip(items[1..], rest);
      MoreItemsRead(s, items[0], tail, items[1..], rest);
      assert [items[0]] + items[1..] == items;
    }
  }

  /** The arguments a call carries: every positional value, then every named value that is not None. */
  function Carried(args: seq<Value>, pairs: seq<(string, Value)>): seq<Arg> {
    seq(|args|, i requires 0 <= i < |args| => Positional(args[i]))
    + seq(|pairs|, i requires 0 <= i < |pairs| => Named(pairs[i].0, pairs[i].1))
  }

  function RenderArg(arg: Arg): string {
    match arg
    case Positional(value) => RenderValue(value)
    case Named(name, value) => RenderPair((name, value))
  }

  lemma ArgRoundTrip(arg: Arg, rest: string)
    requires Delimited(rest)
    ensures ParseArg(RenderArg(arg) + rest) == Some((arg, rest))
  {
    match arg
    case Positional(value) =>
      ValueRoundTrip(value, rest);
      FirstChar(value);
      assert (RenderValue(value) + rest)[0] == RenderValue(value)[0];
    case Named(name, value) => NamedRead(name, value, rest);
  }

  lemma NamedRead(name: string, value: Value, rest: string)
    requires Delimited(rest)
    ensures ParseArg(RenderPair((name, value)) + rest) == Some((Named(name, value), rest))
  {
    var after := RenderValue(value) + rest;
    var s := RenderPair((name, value)) + rest;
    assert s == QuoteIdentifier(name) + (" := " + after);
    QuotedRead(name, '"', " := " + after);
    assert StartsWith(s, "\"");
    TokenRead(" := ", after);
    ValueRoundTrip(value, rest);
  }

  function RenderArgs(args: seq<Arg>): seq<string> {
    if args == [] then [] else [RenderArg(args[0])] + RenderArgs(args[1..])
  }

  lemma {:induction false} ArgsRoundTrip(args: seq<Arg>)
    requires args != []
    ensures ParseArgs(Join(RenderArgs(args)) + ")") == Some(args)
  {
    var s := Join(RenderArgs(args)) + ")";
    if |args| == 1 {
      ArgRoundTrip(args[0], ")");
      assert args == [args[0]];
      assert RenderArgs(args) == [RenderArg(args[0])];
    } else {
      var tail := Join(RenderArgs(args[1..])) + ")";
      assert RenderArgs(args)[1..] == RenderArgs(args[1..]);
      ArgRoundTrip(args[0], ", " + tail);
      assert s == RenderArg(args[0]) + (", " + tail);
      TokenRead(", ", tail);
      ArgsRoundTrip(args[1..]);
      assert [args[0]] + args[1..] == args;
    }
  }

  lemma CarriedTail(args: seq<Value>, pairs: seq<(string, Value)>)
    ensures args != [] ==> Carried(args, pairs) == [Positional(args[0])] + Carried(args[1..], pairs)
    ensures args == [] && pairs != [] ==>
              Carried(args, pairs) == [Named(pairs[0].0, pairs[0].1)] + Carried(args, pairs[1..])
  {
  }

  lemma RenderArgsCons(arg: Arg, rest: seq<Arg>)
    ensures RenderArgs([arg] + rest) == [RenderArg(arg)] + RenderArgs(rest)
  {
    assert ([arg] + rest)[1..] == rest;
  }

  lemma {:induction false} CarriedText(args: seq<Value>, pairs: seq<(string, Value)>)
    ensures RenderArgs(Carried(args, pairs)) == RenderEach(args) + RenderPairs(pairs)
    decreases |args| + |pairs|
  {
    CarriedTail(args, pairs);
    if args != [] {
      CarriedText(args[1..], pairs);
      RenderArgsCons(Positional(args[0]), Carried(args[1..], pairs));
      Regroup([], [RenderValue(args[0])], RenderEach(args[1..]), RenderPairs(pairs));
    } else if pairs != [] {
      CarriedText(args, pairs[1..]);
      RenderArgsCons(Named(pairs[0].0, pairs[0].1), Carried(args, pairs[1..]));
      RenderPairsCons(pairs);
    }
  }

  lemma RenderPairsCons(pairs: seq<(string, Value)>)
    requires pairs != []
    ensures RenderPairs(pairs) == [RenderArg(Named(pairs[0].0, pairs[0].1))] + RenderPairs(pairs[1..])
  {
  }

  lemma NotEmptyCall(args: seq<Arg>)
    requires args != []
    ensures Join(RenderArgs(args)) + ")" != ")"
  {
    assert RenderArg(args[0]) != [] by {
      if args[0].Positional? { FirstChar(args[0].value); }
    }
    assert RenderArgs(args)[0] == RenderArg(args[0]);
  }

  /** Parsing a rendered call gives back its positional values and its set named values, in order. */
  lemma CallRoundTrip(f: string, args: seq<Value>, named: seq<(string, Value)>)
    ensures ParseCall(f, CallText(f, args, named)) == Some(Carried(args, Present(named)))
  {
    var head := "SELECT * FROM " + f + "(";
    var all := Carried(args, Present(named));
    var tail := Join(RenderArgs(all)) + ")";
    CarriedText(args, Present(named));
    var sql := CallText(f, args, named);
    assert sql == head + tail;
    assert sql[..|head|] == head && sql[|head|..] == tail;
    if all == [] {
      assert tail == ")";
    } else {
      ArgsRoundTrip(all);
      NotEmptyCall(all);
    }
  }

  /** Two calls of one function have the same text exactly when they carry the same arguments. */
  lemma CallInjective(f: string, args: seq<Value>, named: seq<(string, Value)>,
                      args': seq<Value>, named': seq<(string, Value)>)
    ensures CallText(f, args, named) == CallText(f, args', named')
            <==> args == args' && Present(named) == Present(named')
  {
    CallRoundTrip(f, args, named);
    CallRoundTrip(f, args', named');
    CarriedParts(args, Present(named));
    CarriedParts(args', Present(named'));
  }

  function Values(all: seq<Arg>): seq<Value> {
    if all == [] then []
    else if all[0].Positional? then [all[0].value] + Values(all[1..])
    else Values(all[1..])
  }

  function Pairs(all: seq<Arg>): seq<(string, Value)> {
    if all == [] then []
    else if all[0].Named? then [(all[0].name, all[0].value)] + Pairs(all[1..])
    else Pairs(all[1..])
  }

  lemma {:induction false} CarriedParts(args: seq<Value>, pairs: seq<(string, Value)>)
    ensures Values(Carried(args, pairs)) == args && Pairs(Carried(args, pairs)) == pairs
    decreases |args| + |pairs|
  {
    CarriedTail(args, pairs);
    var all := Carried(args, pairs);
    if args != [] {
      CarriedParts(args[1..], pairs);
      assert all[1..] == Carried(args[1..], pairs);
    } else if pairs != [] {
      CarriedParts(args, pairs[1..]);
      assert all[1..] == Carried(args, pairs[1..]);
    }
  }

  /** The statement that advances a cursor names one catalog, one consumer and one snapshot, whatever the names. */
  lemma CommitTextIsFaithful(catalog: string, consumer: string, snapshot: int,
                             catalog': string, consumer': string, snapshot': int)
    ensures CallText("cdc_commit", [Text(catalog), Text(consumer), Int(snapshot)], [])
            == CallText("cdc_commit", [Text(catalog'), Text(consumer'), Int(snapshot')], [])
            <==> catalog == catalog' && consumer == consumer' && snapshot == snapshot'
  {
    var args := [Text(catalog), Text(consumer), Int(snapshot)];
    var args' := [Text(catalog'), Text(consumer'), Int(snapshot')];
    CallInjective("cdc_commit", args, [], args', []);
    assert args == args' <==> args[0] == args'[0] && args[1] == args'[1] && args[2] == args'[2];
  }
}

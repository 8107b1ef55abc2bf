/** The recursive-descent half of JsonObjectMapper: toMap, parseObject,
    parseArray, parseValue and parseNumber, walking the token list with one
    shared cursor. */
module JsonParsing {
  import opened JsonValue
  import opened JavaText
  import JsonTokenizer

  /** Double.parseDouble, left open: the bits of the double a literal
      denotes, or None for its NumberFormatException. */
  type DoubleParser = string -> Option<bv64>

  /** A value parsed from the tokens, and where the cursor stands after it. */
  datatype Parsed = Parsed(tree: Value, next: nat)

  /** token.startsWith("\"") && token.endsWith("\""): true of a lone '"' too. */
  predicate IsQuoted(t: string) {
    |t| > 0 && t[0] == '"' && t[|t| - 1] == '"'
  }

  /** token.substring(1, token.length() - 1), which throws on a lone '"'. */
  function Unquote(t: string): (r: Result<string>)
    requires IsQuoted(t)
    ensures r.Ok? <==> |t| >= 2
    ensures r.Ok? ==> t == "\"" + r.value + "\""
  {
    if |t| < 2 then Err(SubstringOutOfRange) else Ok(t[1..|t| - 1])
  }

  /** The quote test of parseObject and parseValue passes for every text in
      quotes, fails for a token starting with anything else, and passes for
      a lone '"', which substring then refuses. */
  lemma QuoteTests(t: string)
    ensures IsQuoted("\"" + t + "\"")
    ensures |t| > 0 && t[0] != '"' ==> !IsQuoted(t)
    ensures IsQuoted("\"") && Unquote("\"") == Err(SubstringOutOfRange)
  {
  }

  /** parseNumber: a token holding a '.' goes to Double.parseDouble, any
      other to Integer.parseInt; either failure is InvalidNumber. */
  function ParseNumber(t: string, parseDouble: DoubleParser): (r: Result<Value>)
    ensures r.Ok? ==> if '.' in t then r.value.Dbl? else r.value.Int?
  {
    if '.' in t then
      match parseDouble(t)
      case Some(bits) => Ok(Dbl(bits))
      case None => Err(InvalidNumber)
    else
      match ParseInt(t)
      case Some(n) => Ok(Int(n))
      case None => Err(InvalidNumber)
  }

  /** parseValue with the cursor at i: the value that starts there. */
  function ValueAt(tokens: seq<string>, i: nat, parseDouble: DoubleParser): (r: Result<Parsed>)
    requires i < |tokens|
    ensures r.Ok? ==> i < r.value.next <= |tokens|
    decreases |tokens| - i, 0
  {
    var t := Trim(tokens[i]);
    if t == "{" then ObjectAt(tokens, i + 1, [], parseDouble)
    else if t == "[" then ArrayAt(tokens, i + 1, [], parseDouble)
    else if IsQuoted(t) then
      match Unquote(t)
      case Ok(s) => Ok(Parsed(Str(s), i + 1))
      case Err(e) => Err(e)
    else if t == "true" || t == "false" then Ok(Parsed(Bool(t == "true"), i + 1))
    else if t == "null" then Ok(Parsed(Null, i + 1))
    else if t == "NaN" || t == "Infinity" then Err(UnsupportedLiteral)
    else
      match ParseNumber(t, parseDouble)
      case Ok(v) => Ok(Parsed(v, i + 1))
      case Err(e) => Err(e)
  }

  /** parseObject with the cursor at i and the entries acc read so far: one
      iteration of its loop, then the rest of the loop. A token that is
      neither '}' nor quoted leaves every variable as it is, so the source's
      loop repeats forever: Diverges. */
  function ObjectAt(tokens: seq<string>, i: nat, acc: seq<Entry>, parseDouble: DoubleParser): (r: Result<Parsed>)
    requires i <= |tokens|
    ensures r.Ok? ==> i < r.value.next <= |tokens| && r.value.tree.Obj?
    decreases |tokens| - i, 1
  {
    if i == |tokens| then Err(UnterminatedObject)
    else
      var t := Trim(tokens[i]);
      if t == "}" then Ok(Parsed(Obj(acc), i + 1))
      else if IsQuoted(t) then
        match Unquote(t)
        case Err(e) => Err(e)
        case Ok(key) =>
          if i + 1 == |tokens| || tokens[i + 1] != ":" then Err(ExpectedColon)
          else if i + 2 == |tokens| then Err(MissingValue)
          else
            match ValueAt(tokens, i + 2, parseDouble)
            case Err(e) => Err(e)
            case Ok(p) => ObjectRest(tokens, p.next, Put(acc, key, p.tree), parseDouble)
      else Err(Diverges)
  }

  /** The end of one turn of parseObject's loop, with the cursor at i after
      an entry's value: step over a ',' if one is next, then go round again. */
  function ObjectRest(tokens: seq<string>, i: nat, acc: seq<Entry>, parseDouble: DoubleParser): (r: Result<Parsed>)
    requires i <= |tokens|
    ensures r.Ok? ==> i < r.value.next <= |tokens| && r.value.tree.Obj?
    decreases |tokens| - i, 2
  {
    if i < |tokens| && tokens[i] == "," then ObjectAt(tokens, i + 1, acc, parseDouble)
    else ObjectAt(tokens, i, acc, parseDouble)
  }

  /** parseArray with the cursor at i and the elements acc read so far. */
  function ArrayAt(tokens: seq<string>, i: nat, acc: seq<Value>, parseDouble: DoubleParser): (r: Result<Parsed>)
    requires i <= |tokens|
    ensures r.Ok? ==> i < r.value.next <= |tokens| && r.value.tree.Arr?
    decreases |tokens| - i, 1
  {
    if i == |tokens| then Err(UnterminatedArray)
    else if Trim(tokens[i]) == "]" then Ok(Parsed(Arr(acc), i + 1))
    else
      match ValueAt(tokens, i, parseDouble)
      case Err(e) => Err(e)
      case Ok(p) => ArrayRest(tokens, p.next, acc + [p.tree], parseDouble)
  }

  /** The end of one turn of parseArray's loop, with the cursor at i after an
      element: the token there is read unchecked, so the tokens must not end
      here; a ',' is stepped over. */
  function ArrayRest(tokens: seq<string>, i: nat, acc: seq<Value>, parseDouble: DoubleParser): (r: Result<Parsed>)
    requires i <= |tokens|
    ensures r.Ok? ==> i < r.value.next <= |tokens| && r.value.tree.Arr?
    decreases |tokens| - i, 2
  {
    if i == |tokens| then Err(IndexOutOfBounds)
    else if tokens[i] == "," then ArrayAt(tokens, i + 1, acc, parseDouble)
    else ArrayAt(tokens, i, acc, parseDouble)
  }

  /** toMap on a token list: the first token must be exactly '{'; whatever
      follows the root object's closing '}' is never looked at. */
  function ParseTokens(tokens: seq<string>, parseDouble: DoubleParser): (r: Result<Value>)
    ensures r.Ok? ==> r.value.Obj?
  {
    if |tokens| == 0 || tokens[0] != "{" then Err(MalformedDocument)
    else
      match ObjectAt(tokens, 1, [], parseDouble)
      case Ok(p) => Ok(p.tree)
      case Err(e) => Err(e)
  }

  /** toMap: tokenize, then parse. */
  function ParseDocument(json: string, parseDouble: DoubleParser): Result<Value> {
    ParseTokens(JsonTokenizer.Tokens(json), parseDouble)
  }

  /** The outcome of a parse method, with the cursor it leaves, matches the
      outcome its specification function describes. */
  predicate Agrees(r: Result<Value>, cursor: nat, spec: Result<Parsed>) {
    match spec
    case Ok(p) => r == Ok(p.tree) && cursor == p.next
    case Err(e) => r == Err(e)
  }

  /** One turn of parseObject's loop up to an entry's value v, which ends
      at next: the entry goes into the map. */
  lemma ObjectStep(tokens: seq<string>, i: nat, acc: seq<Entry>, key: string, v: Value, next: nat, parseDouble: DoubleParser)
    requires i + 2 < |tokens| && IsQuoted(Trim(tokens[i])) && Trim(tokens[i]) != "}"
    requires Unquote(Trim(tokens[i])) == Ok(key) && tokens[i + 1] == ":"
    requires ValueAt(tokens, i + 2, parseDouble) == Ok(Parsed(v, next))
    ensures ObjectAt(tokens, i, acc, parseDouble) == ObjectRest(tokens, next, Put(acc, key, v), parseDouble)
  {
  }

  /** The rest of the turn: the cursor moves on to after, past a ',' if
      there is one. */
  lemma ObjectComma(tokens: seq<string>, i: nat, acc: seq<Entry>, after: nat, parseDouble: DoubleParser)
    requires i <= |tokens| && after == if i < |tokens| && tokens[i] == "," then i + 1 else i
    ensures ObjectRest(tokens, i, acc, parseDouble) == ObjectAt(tokens, after, acc, parseDouble)
  {
  }

  /** One turn of parseArray's loop up to an element v, which ends at next. */
  lemma ArrayStep(tokens: seq<string>, i: nat, acc: seq<Value>, v: Value, next: nat, parseDouble: DoubleParser)
    requires i < |tokens| && Trim(tokens[i]) != "]"
    requires ValueAt(tokens, i, parseDouble) == Ok(Parsed(v, next))
    ensures ArrayAt(tokens, i, acc, parseDouble) == ArrayRest(tokens, next, acc + [v], parseDouble)
  {
  }

  /** The rest of the turn: the cursor moves on to after, past a ',' if
      there is one. */
  lemma ArrayComma(tokens: seq<string>, i: nat, acc: seq<Value>, after: nat, parseDouble: DoubleParser)
    requires i < |tokens| && after == if tokens[i] == "," then i + 1 else i
    ensures ArrayRest(tokens, i, acc, parseDouble) == ArrayAt(tokens, after, acc, parseDouble)
  {
  }

  /** The parser's state: the token list and the shared cursor (the source's
      one-element int[] box, index[0]). */
  class Parser {
    const tokens: seq<string>
    const parseDouble: DoubleParser
    var cursor: nat

    constructor (tokens: seq<string>, parseDouble: DoubleParser, start: nat)
      ensures this.tokens == tokens && this.parseDouble == parseDouble && cursor == start
    {
      this.tokens := tokens;
      this.parseDouble := parseDouble;
      cursor := start;
    }

    method ParseValue() returns (r: Result<Value>)
      requires cursor < |tokens|
      modifies this
      ensures Agrees(r, cursor, ValueAt(tokens, old(cursor), parseDouble))
      ensures Trim(tokens[old(cursor)]) == "NaN" || Trim(tokens[old(cursor)]) == "Infinity" ==> cursor == old(cursor)
      decreases |tokens| - cursor, 0
    {
      var token := Trim(tokens[cursor]);
      if token == "{" {
        cursor := cursor + 1;
        r := ParseObject();
      } else if token == "[" {
        cursor := cursor + 1;
        r := ParseArray();
      } else if IsQuoted(token) {
        cursor := cursor + 1;
        if |token| < 2 {
          return Err(SubstringOutOfRange);
        }
        r := Ok(Str(token[1..|token| - 1]));
      } else if token == "true" || token == "false" {
        cursor := cursor + 1;
        r := Ok(Bool(token == "true"));
      } else if token == "null" {
        cursor := cursor + 1;
        r := Ok(Null);
      } else if token == "NaN" || token == "Infinity" {
        r := Err(UnsupportedLiteral);
      } else {
        cursor := cursor + 1;
        r := ParseNumber(token, parseDouble);
      }
    }

    method ParseObject() returns (r: Result<Value>)
      requires cursor <= |tokens|
      modifies this
      ensures Agrees(r, cursor, ObjectAt(tokens, old(cursor), [], parseDouble))
      decreases |tokens| - cursor, 1
    {
      var entries: seq<Entry> := [];
      while cursor < |tokens|
        invariant old(cursor) <= cursor <= |tokens|
        invariant ObjectAt(tokens, cursor, entries, parseDouble) == ObjectAt(tokens, old(cursor), [], parseDouble)
        decreases |tokens| - cursor
      {
        ghost var here := cursor;
        var token := Trim(tokens[cursor]);
        if token == "}" {
          cursor := cursor + 1;
          assert Closed: ObjectAt(tokens, here, entries, parseDouble) == Ok(Parsed(Obj(entries), cursor));
          return Ok(Obj(entries));
        }
        if IsQuoted(token) {
          if |token| < 2 {
            assert LoneQuote: ObjectAt(tokens, here, entries, parseDouble) == Err(SubstringOutOfRange);
            return Err(SubstringOutOfRange);
          }
          var key := token[1..|token| - 1];
          cursor := cursor + 1;
          if cursor >= |tokens| || tokens[cursor] != ":" {
            assert NoColon: ObjectAt(tokens, here, entries, parseDouble) == Err(ExpectedColon);
            return Err(ExpectedColon);
          }
          cursor := cursor + 1;
          if cursor >= |tokens| {
            assert NoValue: ObjectAt(tokens, here, entries, parseDouble) == Err(MissingValue);
            return Err(MissingValue);
          }
          var value := ParseValue();
          if value.Err? {
            assert BadValue: ObjectAt(tokens, here, entries, parseDouble) == Err(value.error);
            return Err(value.error);
          }
          ghost var before := entries;
          entries := Put(entries, key, value.value);
          ghost var next := cursor;
          if cursor < |tokens| && tokens[cursor] == "," {
            cursor := cursor + 1;
          }
          ObjectStep(tokens, here, before, key, value.value, next, parseDouble);
          ObjectComma(tokens, next, entries, cursor, parseDouble);
        } else {
          // Nothing changes from here on: the source's loop spins forever.
          assert Spins: ObjectAt(tokens, here, entries, parseDouble) == Err(Diverges);
          return Err(Diverges);
        }
      }
      r := Err(UnterminatedObject);
    }

    method ParseArray() returns (r: Result<Value>)
      requires cursor <= |tokens|
      modifies this
      ensures Agrees(r, cursor, ArrayAt(tokens, old(cursor), [], parseDouble))
      decreases |tokens| - cursor, 1
    {
      var list: seq<Value> := [];
      while cursor < |tokens|
        invariant old(cursor) <= cursor <= |tokens|
        invariant ArrayAt(tokens, cursor, list, parseDouble) == ArrayAt(tokens, old(cursor), [], parseDouble)
        decreases |tokens| - cursor
      {
        ghost var here := cursor;
        var token := Trim(tokens[cursor]);
        if token == "]" {
          cursor := cursor + 1;
          assert Closed: ArrayAt(tokens, here, list, parseDouble) == Ok(Parsed(Arr(list), cursor));
          return Ok(Arr(list));
        }
        var value := ParseValue();
        if value.Err? {
          assert BadValue: ArrayAt(tokens, here, list, parseDouble) == Err(value.error);
          return Err(value.error);
        }
        ArrayStep(tokens, here, list, value.value, cursor, parseDouble);
        list := list + [value.value];
        if cursor == |tokens| {
          // tokens.get(index[0]) one past the end
          return Err(IndexOutOfBounds);
        }
        ghost var next := cursor;
        if tokens[cursor] == "," {
          cursor := cursor + 1;
        }
        ArrayComma(tokens, next, list, cursor, parseDouble);
      }
      r := Err(UnterminatedArray);
    }
  }

  /** toMap: tokenize, check the first token, and parse the root object with
      the cursor at 1. */
  method ToMap(json: string, parseDouble: DoubleParser) returns (r: Result<Value>)
    ensures r == ParseDocument(json, parseDouble)
  {
    var tokens := JsonTokenizer.Tokenize(json);
    if |tokens| == 0 || tokens[0] != "{" {
      return Err(MalformedDocument);
    }
    var parser := new Parser(tokens, parseDouble, 1);
    r := parser.ParseObject();
  }
}

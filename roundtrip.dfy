/** What toMap makes of the text toJsonString writes: for a map whose keys
    and strings hold no '"' and whose numbers are ints, the map itself. */
module JsonRoundTrip {
  import opened JsonValue
  import opened JavaText
  import opened JsonTokenizer
  import opened JsonParsing
  import opened JsonSerializing
  import JsonBehaviour

  /** The values the round trip is about: no doubles, no '"' inside a
      string or a key (the serializer does not escape), unique keys. */
  predicate Plain(v: Value)
    decreases v, 1
  {
    match v
    case Dbl(_) => false
    case Str(s) => '"' !in s
    case Arr(items) => PlainItems(items)
    case Obj(es) => UniqueKeys(es) && PlainEntries(es)
    case _ => true
  }

  predicate PlainItems(items: seq<Value>)
    decreases items, 0
  {
    |items| == 0 || (Plain(items[0]) && PlainItems(items[1..]))
  }

  predicate PlainEntries(es: seq<Entry>)
    decreases es, 0
  {
    |es| == 0 || ('"' !in es[0].key && Plain(es[0].value) && PlainEntries(es[1..]))
  }

  /** The token list of the text Render writes for v. */
  function ValueTokens(v: Value, show: DoubleShow): seq<string>
    decreases v, 1
  {
    match v
    case Null => ["null"]
    case Bool(b) => [if b then "true" else "false"]
    case Int(n) => [ShowInt(n)]
    case Dbl(bits) => [show(bits)]
    case Str(s) => ["\"" + s + "\""]
    case Obj(es) => ["{"] + EntriesTokens(es, show) + ["}"]
    case Arr(items) => ["["] + ItemsTokens(items, show) + ["]"]
  }

  /** The tokens of one entry: the quoted key, ':' and the value. */
  function EntryTokens(e: Entry, show: DoubleShow): seq<string>
    decreases e, 0
  {
    ["\"" + e.key + "\"", ":"] + ValueTokens(e.value, show)
  }

  /** The tokens of the entries, with ',' between each two of them. */
  function EntriesTokens(es: seq<Entry>, show: DoubleShow): seq<string>
    decreases es, 1
  {
    if |es| == 0 then []
    else if |es| == 1 then EntryTokens(es[0], show)
    else EntryTokens(es[0], show) + [","] + EntriesTokens(es[1..], show)
  }

  /** The tokens of the elements, with ',' between each two of them. */
  function ItemsTokens(items: seq<Value>, show: DoubleShow): seq<string>
    decreases items, 0
  {
    if |items| == 0 then []
    else if |items| == 1 then ValueTokens(items[0], show)
    else ValueTokens(items[0], show) + [","] + ItemsTokens(items[1..], show)
  }

  // ---------------------------------------------------------------------
  // Tokenizing the rendered text.

  /** An int's text or one of the words true, false and null is a single
      token without quotes. */
  lemma WordToken(w: string)
    requires |w| > 0 && forall k :: 0 <= k < |w| ==> w[k] == '-' || IsDigit(w[k]) || 'a' <= w[k] <= 'z'
    ensures Tokens(w) == [w] && Quotes(w) == 0
  {
    assert forall k :: 0 <= k < |w| ==> IsBare(w[k]);
    BareToken(w);
    BareQuotes(w);
  }

  /** The scalars of a plain value are single tokens without '"' inside. */
  lemma ScalarToken(v: Value, show: DoubleShow)
    requires Plain(v) && !v.Obj? && !v.Arr?
    ensures Tokens(Render(v, show)) == ValueTokens(v, show)
    ensures Quotes(Render(v, show)) % 2 == 0
  {
    match v
    case Null => WordToken("null");
    case Bool(b) => WordToken(if b then "true" else "false");
    case Int(n) =>
      ShowIntChars(n);
      WordToken(ShowInt(n));
    case Str(s) => QuotedToken(s);
  }

  /** The text Render writes for a plain value tokenizes to ValueTokens,
      and closes every quote it opens. */
  lemma {:induction false} RenderTokens(v: Value, show: DoubleShow)
    requires Plain(v)
    ensures Tokens(Render(v, show)) == ValueTokens(v, show)
    ensures Quotes(Render(v, show)) % 2 == 0
    decreases v, 1
  {
    match v
    case Obj(es) =>
      EntriesRenderTokens(es, show);
      Bracketed('{', Join(EntryTexts(es, show)), '}');
    case Arr(items) =>
      ItemsRenderTokens(items, show);
      Bracketed('[', Join(ItemTexts(items, show)), ']');
    case _ => ScalarToken(v, show);
  }

  /** Text between two structural characters tokenizes on its own. */
  lemma Bracketed(open: char, inner: string, close: char)
    requires (open == '{' && close == '}') || (open == '[' && close == ']')
    requires Quotes(inner) % 2 == 0
    ensures Tokens([open] + inner + [close]) == [[open]] + Tokens(inner) + [[close]]
    ensures Quotes([open] + inner + [close]) % 2 == 0
  {
    OpenSplits(open, inner + [close]);
    CloseSplits(inner, close);
    BracketQuotes(open, inner, close);
    var ti := Tokens(inner);
    assert [open] + inner + [close] == [open] + (inner + [close]);
    assert [[open]] + (ti + [[close]]) == [[open]] + ti + [[close]];
  }

  lemma OpenSplits(open: char, tail: string)
    requires open == '{' || open == '['
    ensures Tokens([open] + tail) == [[open]] + Tokens(tail)
  {
    assert [open] + tail == [] + [open] + tail;
    StructuralSplits([], open, tail);
    assert Tokens([]) == [];
  }

  lemma CloseSplits(inner: string, close: char)
    requires (close == '}' || close == ']') && Quotes(inner) % 2 == 0
    ensures Tokens(inner + [close]) == Tokens(inner) + [[close]]
  {
    assert inner + [close] == inner + [close] + [];
    StructuralSplits(inner, close, []);
    assert Tokens([]) == [];
  }

  lemma BracketQuotes(open: char, inner: string, close: char)
    requires open != '"' && close != '"'
    ensures Quotes([open] + inner + [close]) == Quotes(inner)
  {
    QuotesConcat([open] + inner, [close]);
    QuotesConcat([open], inner);
    assert [open][..0] == [];
    assert [close][..0] == [];
  }

  /** A space before a text is dropped. */
  lemma SpaceDropped(r: string)
    ensures Tokens([' '] + r) == Tokens(r)
  {
    assert [' '] + r == [] + [' '] + r && r == [] + r;
    WhitespaceIgnored([], ' ', r);
  }

  /** ": " after a text that closes its quotes is the token ':'. */
  lemma ColonSplits(q: string, r: string)
    requires Quotes(q) % 2 == 0
    ensures Tokens(q + ": " + r) == Tokens(q) + [":"] + Tokens(r)
  {
    assert q + ": " + r == q + [':'] + ([' '] + r);
    StructuralSplits(q, ':', [' '] + r);
    SpaceDropped(r);
  }

  /** An entry's text, the quoted key, ": " and the value's text r,
      tokenizes to the quoted key, ':' and the tokens of r. */
  lemma KeyedTokens(key: string, r: string)
    requires '"' !in key && Quotes(r) % 2 == 0
    ensures Tokens("\"" + key + "\": " + r) == ["\"" + key + "\"", ":"] + Tokens(r)
    ensures Quotes("\"" + key + "\": " + r) % 2 == 0
  {
    var q := "\"" + key + "\"";
    QuotedToken(key);
    assert "\"" + key + "\": " + r == q + ": " + r;
    ColonSplits(q, r);
    QuotesConcat(q + ": ", r);
    QuotesConcat(q, ": ");
  }

  /** Two texts joined by ',' tokenize to their tokens joined by ","; the
      quotes stay balanced. */
  lemma CommaJoined(a: string, b: string)
    requires Quotes(a) % 2 == 0 && Quotes(b) % 2 == 0
    ensures Tokens(a + "," + b) == Tokens(a) + [","] + Tokens(b)
    ensures Quotes(a + "," + b) % 2 == 0
  {
    assert Tokens(a + "," + b) == Tokens(a) + [","] + Tokens(b) by {
      StructuralSplits(a, ',', b);
    }
    assert Quotes(a + "," + b) == Quotes(a) + Quotes(",") + Quotes(b) by {
      QuotesConcat(a + ",", b);
      QuotesConcat(a, ",");
    }
  }

  lemma {:induction false} EntriesRenderTokens(es: seq<Entry>, show: DoubleShow)
    requires PlainEntries(es)
    ensures Tokens(Join(EntryTexts(es, show))) == EntriesTokens(es, show)
    ensures Quotes(Join(EntryTexts(es, show))) % 2 == 0
    decreases es, 1
  {
    if |es| > 0 {
      var texts := EntryTexts(es, show);
      assert Tokens(texts[0]) == EntryTokens(es[0], show) && Quotes(texts[0]) % 2 == 0 by {
        RenderTokens(es[0].value, show);
        KeyedTokens(es[0].key, Render(es[0].value, show));
      }
      if |es| > 1 {
        var rest := Join(EntryTexts(es[1..], show));
        assert Tokens(rest) == EntriesTokens(es[1..], show) && Quotes(rest) % 2 == 0 by {
          EntriesRenderTokens(es[1..], show);
        }
        assert texts[1..] == EntryTexts(es[1..], show);
        CommaJoined(texts[0], rest);
      }
    }
  }

  lemma {:induction false} ItemsRenderTokens(items: seq<Value>, show: DoubleShow)
    requires PlainItems(items)
    ensures Tokens(Join(ItemTexts(items, show))) == ItemsTokens(items, show)
    ensures Quotes(Join(ItemTexts(items, show))) % 2 == 0
    decreases items, 0
  {
    if |items| > 0 {
      var texts := ItemTexts(items, show);
      assert Tokens(texts[0]) == ValueTokens(items[0], show) && Quotes(texts[0]) % 2 == 0 by {
        RenderTokens(items[0], show);
      }
      if |items| > 1 {
        var rest := Join(ItemTexts(items[1..], show));
        assert Tokens(rest) == ItemsTokens(items[1..], show) && Quotes(rest) % 2 == 0 by {
          ItemsRenderTokens(items[1..], show);
        }
        assert texts[1..] == ItemTexts(items[1..], show);
        CommaJoined(texts[0], rest);
      }
    }
  }

  // ---------------------------------------------------------------------
  // Parsing the tokens.

  /** The tokens from position i on begin with ts. */
  predicate At(tokens: seq<string>, i: nat, ts: seq<string>)
    decreases |ts|
  {
    |ts| == 0 || (i < |tokens| && tokens[i] == ts[0] && At(tokens, i + 1, ts[1..]))
  }

  lemma {:induction false} AtParts(tokens: seq<string>, i: nat, a: seq<string>, b: seq<string>)
    requires At(tokens, i, a + b)
    ensures At(tokens, i, a) && At(tokens, i + |a|, b)
    decreases |a|
  {
    if |a| == 0 {
      assert a + b == b;
    } else {
      assert (a + b)[0] == a[0];
      assert (a + b)[1..] == a[1..] + b;
      AtParts(tokens, i + 1, a[1..], b);
    }
  }

  lemma AtHead(tokens: seq<string>, i: nat, ts: seq<string>)
    requires At(tokens, i, ts) && |ts| > 0
    ensures i < |tokens| && tokens[i] == ts[0]
  {
  }

  /** A sequence holds each of its suffixes at the suffix's own offset. */
  lemma {:induction false} AtSuffix(s: seq<string>, i: nat)
    requires i <= |s|
    ensures At(s, i, s[i..])
    decreases |s| - i
  {
    if i < |s| {
      assert s[i..][1..] == s[i + 1..];
      AtSuffix(s, i + 1);
    }
  }

  /** The first token of a plain value is left alone by String.trim and is
      not a closing bracket. */
  lemma FirstToken(v: Value, show: DoubleShow)
    requires Plain(v)
    ensures |ValueTokens(v, show)| > 0
    ensures Trim(ValueTokens(v, show)[0]) == ValueTokens(v, show)[0]
    ensures ValueTokens(v, show)[0] != "]" && ValueTokens(v, show)[0] != "}"
  {
    var t := ValueTokens(v, show)[0];
    match v
    case Int(n) =>
      ShowIntChars(n);
      TrimKeeps(t);
    case _ =>
      TrimKeeps(t);
  }

  /** A scalar's token parses to the scalar. */
  lemma ParseScalar(tokens: seq<string>, i: nat, v: Value, show: DoubleShow, pd: DoubleParser)
    requires Plain(v) && !v.Obj? && !v.Arr?
    requires i < |tokens| && tokens[i] == ValueTokens(v, show)[0]
    ensures ValueAt(tokens, i, pd) == Ok(Parsed(v, i + 1))
  {
    FirstToken(v, show);
    match v
    case Int(n) => ParseIntToken(tokens, i, n, pd);
    case Str(s) => ParseStrToken(tokens, i, s, pd);
    case _ =>
  }

  /** Integer.toString's text is read back by parseNumber. */
  lemma ParseIntToken(tokens: seq<string>, i: nat, n: int32, pd: DoubleParser)
    requires i < |tokens| && tokens[i] == ShowInt(n) && Trim(ShowInt(n)) == ShowInt(n)
    ensures ValueAt(tokens, i, pd) == Ok(Parsed(Int(n), i + 1))
  {
    ShowIntChars(n);
    ParseShowInt(n);
    var t := ShowInt(n);
    assert t[|t| - 1] != '"' && t[|t| - 1] != '{' && t[|t| - 1] != '[';
    assert t != "true" && t != "false" && t != "null" && t != "NaN" && t != "Infinity" by {
      assert IsDigit(t[|t| - 1]);
    }
    assert '.' !in t;
  }

  /** A quoted string's token is read back as the string. */
  lemma ParseStrToken(tokens: seq<string>, i: nat, s: string, pd: DoubleParser)
    requires i < |tokens| && tokens[i] == "\"" + s + "\"" && Trim(tokens[i]) == tokens[i]
    ensures ValueAt(tokens, i, pd) == Ok(Parsed(Str(s), i + 1))
  {
    var t := "\"" + s + "\"";
    assert t[1..|t| - 1] == s;
  }

  /** The position n tokens after i. It exists only for the proofs below:
      a position one lemma hands on to another is written with Past, so
      that both name the same term and the solver need not rediscover that
      two sums are equal. */
  function Past(i: nat, n: nat): nat {
    i + n
  }

  /** Where the first of the entries ends: after its key, ':' and value. */
  function EntryEnd(i: nat, es: seq<Entry>, show: DoubleShow): nat
    requires |es| > 0
  {
    Past(Past(i, 2), |ValueTokens(es[0].value, show)|)
  }

  /** Where the first of the elements ends. */
  function ItemEnd(i: nat, items: seq<Value>, show: DoubleShow): nat
    requires |items| > 0
  {
    Past(i, |ValueTokens(items[0], show)|)
  }

  /** A '{' starts a map. */
  lemma ObjectOpens(tokens: seq<string>, i: nat, pd: DoubleParser)
    requires i < |tokens| && tokens[i] == "{"
    ensures ValueAt(tokens, i, pd) == ObjectAt(tokens, Past(i, 1), [], pd)
  {
    TrimKeeps(tokens[i]);
  }

  /** A '[' starts a list. */
  lemma ArrayOpens(tokens: seq<string>, i: nat, pd: DoubleParser)
    requires i < |tokens| && tokens[i] == "["
    ensures ValueAt(tokens, i, pd) == ArrayAt(tokens, Past(i, 1), [], pd)
  {
    TrimKeeps(tokens[i]);
  }

  /** The tokens of a plain value, wherever they stand, parse to the value
      and leave the cursor just after them. */
  lemma {:induction false} ParseValueTokens(tokens: seq<string>, i: nat, v: Value, show: DoubleShow, pd: DoubleParser)
    requires Plain(v) && At(tokens, i, ValueTokens(v, show))
    ensures i < |tokens|
    ensures ValueAt(tokens, i, pd) == Ok(Parsed(v, Past(i, |ValueTokens(v, show)|)))
    decreases v, 1
  {
    if v.Obj? {
      ParseObjectTokens(tokens, i, v, show, pd);
    } else if v.Arr? {
      ParseArrayTokens(tokens, i, v, show, pd);
    } else {
      ParseScalarTokens(tokens, i, v, show, pd);
    }
  }

  /** The one token of a plain scalar, wherever it stands, parses to it. */
  lemma ParseScalarTokens(tokens: seq<string>, i: nat, v: Value, show: DoubleShow, pd: DoubleParser)
    requires Plain(v) && !v.Obj? && !v.Arr? && At(tokens, i, ValueTokens(v, show))
    ensures i < |tokens|
    ensures ValueAt(tokens, i, pd) == Ok(Parsed(v, Past(i, |ValueTokens(v, show)|)))
  {
    AtHead(tokens, i, ValueTokens(v, show));
    ParseScalar(tokens, i, v, show, pd);
    assert i + 1 == Past(i, |ValueTokens(v, show)|);
  }

  /** The tokens of a map are '{', those of its entries, and '}'. */
  lemma ObjectLayout(tokens: seq<string>, i: nat, v: Value, show: DoubleShow)
    requires v.Obj? && At(tokens, i, ValueTokens(v, show))
    ensures i < |tokens| && tokens[i] == "{"
    ensures At(tokens, Past(i, 1), EntriesTokens(v.entries, show) + ["}"])
    ensures Past(i, |ValueTokens(v, show)|) == Past(i, 1) + |EntriesTokens(v.entries, show)| + 1
  {
    var inner := EntriesTokens(v.entries, show) + ["}"];
    assert ValueTokens(v, show) == ["{"] + inner;
    AtParts(tokens, i, ["{"], inner);
    AtHead(tokens, i, ["{"]);
  }

  /** The tokens of a list are '[', those of its elements, and ']'. */
  lemma ArrayLayout(tokens: seq<string>, i: nat, v: Value, show: DoubleShow)
    requires v.Arr? && At(tokens, i, ValueTokens(v, show))
    ensures i < |tokens| && tokens[i] == "["
    ensures At(tokens, Past(i, 1), ItemsTokens(v.items, show) + ["]"])
    ensures Past(i, |ValueTokens(v, show)|) == Past(i, 1) + |ItemsTokens(v.items, show)| + 1
  {
    var inner := ItemsTokens(v.items, show) + ["]"];
    assert ValueTokens(v, show) == ["["] + inner;
    AtParts(tokens, i, ["["], inner);
    AtHead(tokens, i, ["["]);
  }

  /** A plain map is in one piece: its keys are unique and its entries plain. */
  lemma PlainObject(v: Value)
    requires v.Obj? && Plain(v)
    ensures UniqueKeys(v.entries) && PlainEntries(v.entries) && v == Obj(v.entries)
  {
  }

  /** A plain list has plain elements. */
  lemma PlainArray(v: Value)
    requires v.Arr? && Plain(v)
    ensures PlainItems(v.items) && v == Arr(v.items)
  {
  }

  /** The tokens of a plain map parse to the map. */
  lemma {:induction false} ParseObjectTokens(tokens: seq<string>, i: nat, v: Value, show: DoubleShow, pd: DoubleParser)
    requires v.Obj? && Plain(v) && At(tokens, i, ValueTokens(v, show))
    ensures ValueAt(tokens, i, pd) == Ok(Parsed(v, Past(i, |ValueTokens(v, show)|)))
    decreases v, 0
  {
    ObjectLayout(tokens, i, v, show);
    ObjectOpens(tokens, i, pd);
    PlainObject(v);
    Unprefixed(v.entries);
    ParseEntriesTokens(tokens, Past(i, 1), [], v.entries, v.entries, Past(i, |ValueTokens(v, show)|), show, pd);
  }

  /** The tokens of a plain list parse to the list. */
  lemma {:induction false} ParseArrayTokens(tokens: seq<string>, i: nat, v: Value, show: DoubleShow, pd: DoubleParser)
    requires v.Arr? && Plain(v) && At(tokens, i, ValueTokens(v, show))
    ensures ValueAt(tokens, i, pd) == Ok(Parsed(v, Past(i, |ValueTokens(v, show)|)))
    decreases v, 0
  {
    ArrayLayout(tokens, i, v, show);
    ArrayOpens(tokens, i, pd);
    PlainArray(v);
    Unprefixed(v.items);
    ParseItemsTokens(tokens, Past(i, 1), [], v.items, v.items, Past(i, |ValueTokens(v, show)|), show, pd);
  }

  /** A quoted key, ':' and a value with a new key put the entry at the
      end of the map. */
  lemma EntryStep(tokens: seq<string>, i: nat, acc: seq<Entry>, es: seq<Entry>, j: nat, pd: DoubleParser)
    requires |es| > 0 && i + 2 < |tokens| && tokens[i] == "\"" + es[0].key + "\"" && tokens[i + 1] == ":"
    requires ValueAt(tokens, Past(i, 2), pd) == Ok(Parsed(es[0].value, j))
    requires es[0].key !in Keys(acc)
    ensures ObjectAt(tokens, i, acc, pd) == ObjectRest(tokens, j, acc + [es[0]], pd)
  {
    var q := tokens[i];
    TrimKeeps(q);
    assert q[1..|q| - 1] == es[0].key;
    assert q[0] == '"';
    assert Past(i, 2) == i + 2;
    ObjectStep(tokens, i, acc, es[0].key, es[0].value, j, pd);
    PutAppends(acc, es[0].key, es[0].value);
  }

  // The five lemmas that follow are sequence identities that exist only to
  // steer the solver: each names, at the call site that needs it, a step
  // of the entry and element lists that it does not take by itself.

  /** Nothing before a sequence leaves it as it is. */
  lemma Unprefixed<T>(es: seq<T>)
    ensures [] + es == es
  {
  }

  /** With nothing left, acc is all there is. */
  lemma NoneLeft<T>(acc: seq<T>, es: seq<T>, all: seq<T>)
    requires |es| == 0 && all == acc + es
    ensures acc == all
  {
  }

  /** With one element left, moving it to the end of acc gives acc + es. */
  lemma LastAppend<T>(acc: seq<T>, es: seq<T>, all: seq<T>)
    requires |es| == 1 && all == acc + es
    ensures acc + [es[0]] == all
  {
  }

  /** Moving the first of several plain entries to the end of acc leaves
      the same map, and plain entries after it. */
  lemma RestEntries(acc: seq<Entry>, es: seq<Entry>, all: seq<Entry>)
    requires |es| > 1 && all == acc + es && PlainEntries(es)
    ensures all == acc + [es[0]] + es[1..] && PlainEntries(es[1..])
  {
    assert acc + [es[0]] + es[1..] == acc + es;
  }

  /** The same for the elements of a list. */
  lemma RestItems(acc: seq<Value>, items: seq<Value>, all: seq<Value>)
    requires |items| > 1 && all == acc + items && PlainItems(items)
    ensures all == acc + [items[0]] + items[1..] && PlainItems(items[1..])
  {
    assert acc + [items[0]] + items[1..] == acc + items;
  }

  /** A '}' where the next entry could start closes the map. */
  lemma ObjectCloses(tokens: seq<string>, j: nat, acc: seq<Entry>, next: nat, pd: DoubleParser)
    requires j < |tokens| && tokens[j] == "}" && next == j + 1
    ensures ObjectRest(tokens, j, acc, pd) == Ok(Parsed(Obj(acc), next))
  {
    ObjectComma(tokens, j, acc, j, pd);
    TrimKeeps("}");
  }

  /** A ']' where the next element could start closes the list. */
  lemma ArrayCloses(tokens: seq<string>, j: nat, acc: seq<Value>, next: nat, pd: DoubleParser)
    requires j < |tokens| && tokens[j] == "]" && next == j + 1
    ensures ArrayRest(tokens, j, acc, pd) == Ok(Parsed(Arr(acc), next))
  {
    ArrayComma(tokens, j, acc, j, pd);
    TrimKeeps("]");
  }

  /** In a map with unique keys, the key after a prefix is not in the prefix. */
  lemma {:induction false} UniqueSplit(acc: seq<Entry>, es: seq<Entry>)
    requires |es| > 0 && UniqueKeys(acc + es)
    ensures es[0].key !in Keys(acc)
    decreases |acc|
  {
    if |acc| > 0 {
      var s := acc + es;
      assert s[1..] == acc[1..] + es;
      UniqueSplit(acc[1..], es);
      KeysConcat(acc[1..], es);
      assert Keys(es)[0] == es[0].key;
    }
  }

  /** How the tokens of the entries and the closing '}' fall apart at the
      first entry. */
  lemma EntriesLayout(tokens: seq<string>, i: nat, es: seq<Entry>, show: DoubleShow)
    requires |es| > 0 && At(tokens, i, EntriesTokens(es, show) + ["}"])
    ensures i + 1 < |tokens| && tokens[i] == "\"" + es[0].key + "\"" && tokens[i + 1] == ":"
    ensures At(tokens, Past(i, 2), ValueTokens(es[0].value, show))
    ensures EntryEnd(i, es, show) < |tokens|
    ensures |es| == 1 ==> tokens[EntryEnd(i, es, show)] == "}" && i + |EntriesTokens(es, show)| == EntryEnd(i, es, show)
    ensures |es| > 1 ==> tokens[EntryEnd(i, es, show)] == ","
    ensures |es| > 1 ==> At(tokens, Past(EntryEnd(i, es, show), 1), EntriesTokens(es[1..], show) + ["}"])
    ensures |es| > 1 ==> i + |EntriesTokens(es, show)| == Past(EntryEnd(i, es, show), 1) + |EntriesTokens(es[1..], show)|
  {
    var q := "\"" + es[0].key + "\"";
    var vts := ValueTokens(es[0].value, show);
    var after := if |es| == 1 then ["}"] else [","] + (EntriesTokens(es[1..], show) + ["}"]);
    assert EntriesTokens(es, show) + ["}"] == [q, ":"] + (vts + after);
    AtParts(tokens, i, [q, ":"], vts + after);
    AtParts(tokens, i + 2, vts, after);
    assert [q, ":"] == [q] + [":"];
    AtParts(tokens, i, [q], [":"]);
    AtHead(tokens, i, [q]);
    AtHead(tokens, i + 1, [":"]);
    AtHead(tokens, i + 2 + |vts|, after);
    if |es| > 1 {
      AtParts(tokens, i + 2 + |vts|, [","], EntriesTokens(es[1..], show) + ["}"]);
    }
  }

  /** The first of the entries: its quoted key, ':' and its value's tokens. */
  lemma EntriesHead(tokens: seq<string>, i: nat, es: seq<Entry>, show: DoubleShow)
    requires |es| > 0 && At(tokens, i, EntriesTokens(es, show) + ["}"])
    ensures i + 1 < |tokens| && tokens[i] == "\"" + es[0].key + "\"" && tokens[i + 1] == ":"
    ensures At(tokens, Past(i, 2), ValueTokens(es[0].value, show))
  {
    EntriesLayout(tokens, i, es, show);
  }

  /** Past the only entry, the '}' closes the map. */
  lemma EntriesEnd(tokens: seq<string>, i: nat, es: seq<Entry>, all: seq<Entry>, next: nat, show: DoubleShow, pd: DoubleParser)
    requires |es| == 1 && At(tokens, i, EntriesTokens(es, show) + ["}"]) && next == i + |EntriesTokens(es, show)| + 1
    ensures EntryEnd(i, es, show) <= |tokens|
    ensures ObjectRest(tokens, EntryEnd(i, es, show), all, pd) == Ok(Parsed(Obj(all), next))
  {
    EntriesLayout(tokens, i, es, show);
    ObjectCloses(tokens, EntryEnd(i, es, show), all, next, pd);
  }

  /** Past the first of several entries comes a ',', which is stepped
      over, and the other entries, which end where all of them end. */
  lemma EntriesTail(tokens: seq<string>, i: nat, es: seq<Entry>, acc: seq<Entry>, next: nat, show: DoubleShow, pd: DoubleParser)
    requires |es| > 1 && At(tokens, i, EntriesTokens(es, show) + ["}"]) && next == i + |EntriesTokens(es, show)| + 1
    ensures EntryEnd(i, es, show) < |tokens|
    ensures ObjectRest(tokens, EntryEnd(i, es, show), acc, pd) == ObjectAt(tokens, Past(EntryEnd(i, es, show), 1), acc, pd)
    ensures At(tokens, Past(EntryEnd(i, es, show), 1), EntriesTokens(es[1..], show) + ["}"])
    ensures next == Past(EntryEnd(i, es, show), 1) + |EntriesTokens(es[1..], show)| + 1
  {
    EntriesLayout(tokens, i, es, show);
    ObjectComma(tokens, EntryEnd(i, es, show), acc, Past(EntryEnd(i, es, show), 1), pd);
  }

  /** The first of plain entries with unique keys, read after acc. */
  lemma FirstPlain(acc: seq<Entry>, es: seq<Entry>)
    requires |es| > 0 && PlainEntries(es) && UniqueKeys(acc + es)
    ensures Plain(es[0].value) && es[0].key !in Keys(acc)
  {
    UniqueSplit(acc, es);
  }

  /** The tokens of the entries and the closing '}', read with the entries
      acc already in the map, add the entries in order: the map read is
      all, which is acc followed by es, and the cursor ends at next, just
      past the '}'. */
  lemma {:induction false} ParseEntriesTokens(tokens: seq<string>, i: nat, acc: seq<Entry>, es: seq<Entry>, all: seq<Entry>, next: nat, show: DoubleShow, pd: DoubleParser)
    requires all == acc + es && PlainEntries(es) && UniqueKeys(all)
    requires At(tokens, i, EntriesTokens(es, show) + ["}"]) && next == i + |EntriesTokens(es, show)| + 1
    ensures ObjectAt(tokens, i, acc, pd) == Ok(Parsed(Obj(all), next))
    decreases es, 2
  {
    if |es| == 0 {
      AtHead(tokens, i, EntriesTokens(es, show) + ["}"]);
      NoneLeft(acc, es, all);
      ObjectComma(tokens, i, acc, i, pd);
      TrimKeeps("}");
    } else if |es| == 1 {
      LastEntry(tokens, i, acc, es, all, next, show, pd);
    } else {
      MoreEntries(tokens, i, acc, es, all, next, show, pd);
    }
  }

  /** An entry's tokens put the entry, whose key is new, at the end of the map. */
  lemma {:induction false} EntryFirst(tokens: seq<string>, i: nat, acc: seq<Entry>, es: seq<Entry>, show: DoubleShow, pd: DoubleParser)
    requires |es| > 0 && i + 1 < |tokens| && tokens[i] == "\"" + es[0].key + "\"" && tokens[i + 1] == ":"
    requires Plain(es[0].value) && At(tokens, Past(i, 2), ValueTokens(es[0].value, show)) && es[0].key !in Keys(acc)
    ensures EntryEnd(i, es, show) <= |tokens|
    ensures ObjectAt(tokens, i, acc, pd) == ObjectRest(tokens, EntryEnd(i, es, show), acc + [es[0]], pd)
    decreases es, 0
  {
    ParseValueTokens(tokens, Past(i, 2), es[0].value, show, pd);
    EntryStep(tokens, i, acc, es, EntryEnd(i, es, show), pd);
  }

  /** After the last entry, the '}' closes the map. */
  lemma {:induction false} LastEntry(tokens: seq<string>, i: nat, acc: seq<Entry>, es: seq<Entry>, all: seq<Entry>, next: nat, show: DoubleShow, pd: DoubleParser)
    requires |es| == 1 && all == acc + es && PlainEntries(es) && UniqueKeys(all)
    requires At(tokens, i, EntriesTokens(es, show) + ["}"]) && next == i + |EntriesTokens(es, show)| + 1
    ensures ObjectAt(tokens, i, acc, pd) == Ok(Parsed(Obj(all), next))
    decreases es, 1
  {
    EntriesHead(tokens, i, es, show);
    FirstPlain(acc, es);
    EntryFirst(tokens, i, acc, es, show, pd);
    EntriesEnd(tokens, i, es, all, next, show, pd);
    LastAppend(acc, es, all);
  }

  /** After an entry that is not the last, the ',' is stepped over and the
      remaining entries follow. */
  lemma {:induction false} MoreEntries(tokens: seq<string>, i: nat, acc: seq<Entry>, es: seq<Entry>, all: seq<Entry>, next: nat, show: DoubleShow, pd: DoubleParser)
    requires |es| > 1 && all == acc + es && PlainEntries(es) && UniqueKeys(all)
    requires At(tokens, i, EntriesTokens(es, show) + ["}"]) && next == i + |EntriesTokens(es, show)| + 1
    ensures ObjectAt(tokens, i, acc, pd) == Ok(Parsed(Obj(all), next))
    decreases es, 1
  {
    EntriesHead(tokens, i, es, show);
    FirstPlain(acc, es);
    EntryFirst(tokens, i, acc, es, show, pd);
    EntriesTail(tokens, i, es, acc + [es[0]], next, show, pd);
    RestEntries(acc, es, all);
    ParseEntriesTokens(tokens, Past(EntryEnd(i, es, show), 1), acc + [es[0]], es[1..], all, next, show, pd);
  }

  /** How the tokens of the elements and the closing ']' fall apart at the
      first element. */
  lemma ItemsLayout(tokens: seq<string>, i: nat, items: seq<Value>, show: DoubleShow)
    requires |items| > 0 && At(tokens, i, ItemsTokens(items, show) + ["]"])
    ensures At(tokens, i, ValueTokens(items[0], show))
    ensures ItemEnd(i, items, show) < |tokens|
    ensures |items| == 1 ==> tokens[ItemEnd(i, items, show)] == "]" && i + |ItemsTokens(items, show)| == ItemEnd(i, items, show)
    ensures |items| > 1 ==> tokens[ItemEnd(i, items, show)] == ","
    ensures |items| > 1 ==> At(tokens, Past(ItemEnd(i, items, show), 1), ItemsTokens(items[1..], show) + ["]"])
    ensures |items| > 1 ==> i + |ItemsTokens(items, show)| == Past(ItemEnd(i, items, show), 1) + |ItemsTokens(items[1..], show)|
  {
    var vts := ValueTokens(items[0], show);
    var after := if |items| == 1 then ["]"] else [","] + (ItemsTokens(items[1..], show) + ["]"]);
    assert ItemsTokens(items, show) + ["]"] == vts + after;
    AtParts(tokens, i, vts, after);
    AtHead(tokens, i + |vts|, after);
    if |items| > 1 {
      AtParts(tokens, i + |vts|, [","], ItemsTokens(items[1..], show) + ["]"]);
    }
  }

  /** Past the only element, the ']' closes the list. */
  lemma ItemsEnd(tokens: seq<string>, i: nat, items: seq<Value>, all: seq<Value>, next: nat, show: DoubleShow, pd: DoubleParser)
    requires |items| == 1 && At(tokens, i, ItemsTokens(items, show) + ["]"]) && next == i + |ItemsTokens(items, show)| + 1
    ensures ItemEnd(i, items, show) <= |tokens|
    ensures ArrayRest(tokens, ItemEnd(i, items, show), all, pd) == Ok(Parsed(Arr(all), next))
  {
    ItemsLayout(tokens, i, items, show);
    ArrayCloses(tokens, ItemEnd(i, items, show), all, next, pd);
  }

  /** Past the first of several elements comes a ',', which is stepped
      over, and the other elements. */
  lemma ItemsTail(tokens: seq<string>, i: nat, items: seq<Value>, acc: seq<Value>, next: nat, show: DoubleShow, pd: DoubleParser)
    requires |items| > 1 && At(tokens, i, ItemsTokens(items, show) + ["]"]) && next == i + |ItemsTokens(items, show)| + 1
    ensures ItemEnd(i, items, show) < |tokens|
    ensures ArrayRest(tokens, ItemEnd(i, items, show), acc, pd) == ArrayAt(tokens, Past(ItemEnd(i, items, show), 1), acc, pd)
    ensures At(tokens, Past(ItemEnd(i, items, show), 1), ItemsTokens(items[1..], show) + ["]"])
    ensures next == Past(ItemEnd(i, items, show), 1) + |ItemsTokens(items[1..], show)| + 1
  {
    ItemsLayout(tokens, i, items, show);
    ArrayComma(tokens, ItemEnd(i, items, show), acc, Past(ItemEnd(i, items, show), 1), pd);
  }

  /** The tokens of the elements and the closing ']', read with the
      elements acc already in the list, add the elements in order: the
      list read is all, which is acc followed by items, and the cursor
      ends at next, just past the ']'. */
  lemma {:induction false} ParseItemsTokens(tokens: seq<string>, i: nat, acc: seq<Value>, items: seq<Value>, all: seq<Value>, next: nat, show: DoubleShow, pd: DoubleParser)
    requires all == acc + items && PlainItems(items)
    requires At(tokens, i, ItemsTokens(items, show) + ["]"]) && next == i + |ItemsTokens(items, show)| + 1
    ensures ArrayAt(tokens, i, acc, pd) == Ok(Parsed(Arr(all), next))
    decreases items, 2
  {
    if |items| == 0 {
      AtHead(tokens, i, ItemsTokens(items, show) + ["]"]);
      NoneLeft(acc, items, all);
      TrimKeeps("]");
    } else if |items| == 1 {
      LastItem(tokens, i, acc, items, all, next, show, pd);
    } else {
      MoreItems(tokens, i, acc, items, all, next, show, pd);
    }
  }

  /** An element's tokens put the element at the end of the list. */
  lemma {:induction false} ItemFirst(tokens: seq<string>, i: nat, acc: seq<Value>, items: seq<Value>, show: DoubleShow, pd: DoubleParser)
    requires |items| > 0 && PlainItems(items)
    requires At(tokens, i, ItemsTokens(items, show) + ["]"])
    ensures ItemEnd(i, items, show) < |tokens|
    ensures ArrayAt(tokens, i, acc, pd) == ArrayRest(tokens, ItemEnd(i, items, show), acc + [items[0]], pd)
    decreases items, 0
  {
    ItemsLayout(tokens, i, items, show);
    FirstToken(items[0], show);
    AtHead(tokens, i, ValueTokens(items[0], show));
    ParseValueTokens(tokens, i, items[0], show, pd);
    ArrayStep(tokens, i, acc, items[0], ItemEnd(i, items, show), pd);
  }

  /** After the last element, the ']' closes the list. */
  lemma {:induction false} LastItem(tokens: seq<string>, i: nat, acc: seq<Value>, items: seq<Value>, all: seq<Value>, next: nat, show: DoubleShow, pd: DoubleParser)
    requires |items| == 1 && all == acc + items && PlainItems(items)
    requires At(tokens, i, ItemsTokens(items, show) + ["]"]) && next == i + |ItemsTokens(items, show)| + 1
    ensures ArrayAt(tokens, i, acc, pd) == Ok(Parsed(Arr(all), next))
    decreases items, 1
  {
    ItemFirst(tokens, i, acc, items, show, pd);
    ItemsEnd(tokens, i, items, all, next, show, pd);
    LastAppend(acc, items, all);
  }

  /** After an element that is not the last, the ',' is stepped over and
      the remaining elements follow. */
  lemma {:induction false} MoreItems(tokens: seq<string>, i: nat, acc: seq<Value>, items: seq<Value>, all: seq<Value>, next: nat, show: DoubleShow, pd: DoubleParser)
    requires |items| > 1 && all == acc + items && PlainItems(items)
    requires At(tokens, i, ItemsTokens(items, show) + ["]"]) && next == i + |ItemsTokens(items, show)| + 1
    ensures ArrayAt(tokens, i, acc, pd) == Ok(Parsed(Arr(all), next))
    decreases items, 1
  {
    ItemFirst(tokens, i, acc, items, show, pd);
    ItemsTail(tokens, i, items, acc + [items[0]], next, show, pd);
    RestItems(acc, items, all);
    ParseItemsTokens(tokens, Past(ItemEnd(i, items, show), 1), acc + [items[0]], items[1..], all, next, show, pd);
  }

  /** toMap reads back what toJsonString writes for a plain map, whatever
      Double.toString and Double.parseDouble do. */
  lemma RoundTrip(v: Value, show: DoubleShow, pd: DoubleParser)
    requires v.Obj? && Plain(v)
    ensures ParseDocument(Render(v, show), pd) == Ok(v)
  {
    RenderTokens(v, show);
    ObjectTokensParse(v, show, pd);
  }

  /** parseObject, started after the '{' of a plain map's tokens, reads the
      map back and stops exactly at the end of them. */
  lemma ObjectTokensParse(v: Value, show: DoubleShow, pd: DoubleParser)
    requires v.Obj? && Plain(v)
    ensures ObjectAt(ValueTokens(v, show), 1, [], pd) == Ok(Parsed(v, |ValueTokens(v, show)|))
  {
    var ts := ValueTokens(v, show);
    var inner := EntriesTokens(v.entries, show) + ["}"];
    assert ts == ["{"] + inner;
    assert At(ts, 1, inner) by {
      AtSuffix(ts, 1);
      assert ts[1..] == inner;
    }
    PlainObject(v);
    Unprefixed(v.entries);
    ParseEntriesTokens(ts, 1, [], v.entries, v.entries, 1 + |inner|, show, pd);
  }

  /** toMap refuses every proper prefix of a plain map's tokens: whatever
      the cut leaves out, parseObject runs out of tokens before the '}'. */
  lemma TruncatedRefused(v: Value, show: DoubleShow, pd: DoubleParser, j: nat)
    requires v.Obj? && Plain(v) && j < |ValueTokens(v, show)|
    ensures ParseTokens(ValueTokens(v, show)[..j], pd).Err?
  {
    var ts := ValueTokens(v, show);
    var prefix := ts[..j];
    if j > 0 && ObjectAt(prefix, 1, [], pd).Ok? {
      ObjectTokensParse(v, show, pd);
      assert prefix + ts[j..] == ts;
      JsonBehaviour.ObjectLocal(prefix, ts[j..], 1, [], pd);
      assert false;
    }
  }

  /** The text toJsonString writes for a plain map, with its closing '}'
      cut off, is refused by toMap. */
  lemma UnclosedRefused(v: Value, show: DoubleShow, pd: DoubleParser)
    requires v.Obj? && Plain(v)
    ensures |Render(v, show)| > 0 && ParseDocument(Render(v, show)[..|Render(v, show)| - 1], pd).Err?
  {
    var inner := Join(EntryTexts(v.entries, show));
    var text := Render(v, show);
    assert text == "{" + inner + "}";
    assert text[..|text| - 1] == ['{'] + inner;
    EntriesRenderTokens(v.entries, show);
    OpenSplits('{', inner);
    CloseSplits(inner, '}');
    RenderTokens(v, show);
    Bracketed('{', inner, '}');
    var ts := ValueTokens(v, show);
    assert Tokens(text[..|text| - 1]) == ts[..|ts| - 1];
    TruncatedRefused(v, show, pd, |ts| - 1);
  }

  /** A list is written as '[' ... ']', and toMap refuses any token list that
      does not start with '{': the text of no list is read back. */
  lemma ListNotReadBack(v: Value, show: DoubleShow, pd: DoubleParser)
    requires v.Arr?
    ensures ParseDocument(Render(v, show), pd) == Err(MalformedDocument)
  {
    var inner := Join(ItemTexts(v.items, show)) + "]";
    StructuralSplits([], '[', inner);
    assert Render(v, show) == [] + ['['] + inner;
  }

  /** The text of a map with one string entry opens with '{', the quoted
      key and ':'; the rest is the tokens of the string's text and the '}'. */
  lemma StringEntryTokens(k: string, s: string, show: DoubleShow)
    requires '"' !in k
    ensures Tokens(Render(Obj([Entry(k, Str(s))]), show)) == ["{", "\"" + k + "\"", ":"] + Tokens("\"" + s + ['"', '}'])
  {
    var q := "\"" + k + "\"";
    var r := "\"" + s + ['"', '}'];
    var e := Entry(k, Str(s));
    var t := EntryTexts([e], show);
    assert Render(e.value, show) == "\"" + s + "\"";
    assert |t| == 1 && t[0] == "\"" + e.key + "\": " + Render(e.value, show);
    assert Render(Obj([e]), show) == ['{'] + (q + ": " + r);
    OpenSplits('{', q + ": " + r);
    QuotedToken(k);
    ColonSplits(q, r);
  }

  /** A quoted a, then the bare run b, then a quote mark and a closing
      brace is one token: the third '"' opens a quote that never closes,
      so the '}' stays inside it. */
  lemma OpenQuoteToken(a: string, b: string)
    requires '"' !in a && forall i :: 0 <= i < |b| ==> IsBare(b[i])
    ensures Tokens("\"" + a + "\"" + b + ['"', '}']) == ["\"" + a + "\"" + b + ['"', '}']]
  {
    var w := "\"" + a + "\"" + b;
    RunQuotedString(a);
    RunConcat(Start, "\"" + a + "\"", b);
    RunBare(Scan([], "\"" + a + "\"", false), b);
    assert Run(Start, w) == Scan([], w, false);
    RunConcat(Start, w, ['"', '}']);
    assert Run(Scan([], w, false), ['"', '}']) == Scan([], w + ['"', '}'], true);
  }

  /** After the key q and ':', parseValue meets a token t that opens with
      '"' but ends in '}', holds no '.', and so is neither quoted nor a
      literal: parseNumber refuses it. */
  lemma QuoteTokensRefused(k: string, t: string, pd: DoubleParser)
    requires '"' !in k && '.' !in t
    requires |t| >= 2 && t[0] == '"' && t[|t| - 1] == '}'
    ensures ParseTokens(["{", "\"" + k + "\"", ":", t], pd) == Err(InvalidNumber)
  {
    var q := "\"" + k + "\"";
    var ts := ["{", q, ":", t];
    TrimKeeps(q);
    assert q[1..|q| - 1] == k;
    TrimKeeps(t);
    assert !IsQuoted(t);
    assert !AllDigits(t) by { assert !IsDigit(t[0]); }
    assert ParseInt(t) == None;
    assert t != "{" && t != "[" && t != "true" && t != "false" && t != "null" && t != "NaN" && t != "Infinity" by {
      assert t[0] == '"';
    }
    assert ValueAt(ts, 3, pd) == Err(InvalidNumber);
  }

  /** A string value a"b, one '"' between two runs with no '"' or '.' in
      them, is not read back: its text closes with the token "a"b"} that
      parseNumber refuses, so toMap fails instead of returning the map. */
  lemma QuoteBreaksRoundTrip(k: string, a: string, b: string, show: DoubleShow, pd: DoubleParser)
    requires '"' !in k && '"' !in a && '.' !in a
    requires forall i :: 0 <= i < |b| ==> IsBare(b[i]) && b[i] != '.'
    ensures ParseDocument(Render(Obj([Entry(k, Str(a + ['"'] + b))]), show), pd) == Err(InvalidNumber)
  {
    var s := a + ['"'] + b;
    var t := "\"" + a + "\"" + b + ['"', '}'];
    var text := Render(Obj([Entry(k, Str(s))]), show);
    assert Tokens(text) == ["{", "\"" + k + "\"", ":", t] by {
      StringEntryTokens(k, s, show);
      assert "\"" + s + ['"', '}'] == t;
      OpenQuoteToken(a, b);
    }
    assert '.' !in t by {
      assert forall i :: 0 <= i < |t| ==> t[i] == '"' || t[i] == '}' || t[i] in a || t[i] in b;
    }
    QuoteTokensRefused(k, t, pd);
  }
}

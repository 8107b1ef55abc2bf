/** What toMap does with inputs the round trip does not reach: the tokens
    after the root object, and the outcomes the source's tests and error
    paths describe, on concrete token lists. */
module JsonBehaviour {
  import opened JsonValue
  import opened JsonParsing
  import JsonTokenizer

  // A sequence identity that exists only to steer the solver: the
  // locality lemmas call it at each index they read.

  /** Indexing into a list is unchanged by what is appended after it. */
  lemma AppendIndex(tokens: seq<string>, extra: seq<string>, i: nat)
    requires i < |tokens|
    ensures (tokens + extra)[i] == tokens[i]
  {
  }

  /** A value that parses from tokens parses the same from any extension of
      them: parseValue never looks past the token that ends its value. */
  lemma {:induction false} ValueLocal(tokens: seq<string>, extra: seq<string>, i: nat, pd: DoubleParser)
    requires i < |tokens| && ValueAt(tokens, i, pd).Ok?
    ensures ValueAt(tokens + extra, i, pd) == ValueAt(tokens, i, pd)
    decreases |tokens| - i, 0
  {
    AppendIndex(tokens, extra, i);
    var t := JavaText.Trim(tokens[i]);
    if t == "{" {
      ObjectLocal(tokens, extra, i + 1, [], pd);
    } else if t == "[" {
      ArrayLocal(tokens, extra, i + 1, [], pd);
    }
  }

  lemma {:induction false} ObjectLocal(tokens: seq<string>, extra: seq<string>, i: nat, acc: seq<Entry>, pd: DoubleParser)
    requires i <= |tokens| && ObjectAt(tokens, i, acc, pd).Ok?
    ensures ObjectAt(tokens + extra, i, acc, pd) == ObjectAt(tokens, i, acc, pd)
    decreases |tokens| - i, 1
  {
    AppendIndex(tokens, extra, i);
    var t := JavaText.Trim(tokens[i]);
    if t != "}" {
      AppendIndex(tokens, extra, i + 1);
      ValueLocal(tokens, extra, i + 2, pd);
      var p := ValueAt(tokens, i + 2, pd).value;
      ObjectRestLocal(tokens, extra, p.next, Put(acc, Unquote(t).value, p.tree), pd);
    }
  }

  lemma {:induction false} ObjectRestLocal(tokens: seq<string>, extra: seq<string>, i: nat, acc: seq<Entry>, pd: DoubleParser)
    requires i <= |tokens| && ObjectRest(tokens, i, acc, pd).Ok?
    ensures ObjectRest(tokens + extra, i, acc, pd) == ObjectRest(tokens, i, acc, pd)
    decreases |tokens| - i, 2
  {
    if i < |tokens| {
      AppendIndex(tokens, extra, i);
      if tokens[i] == "," {
        ObjectLocal(tokens, extra, i + 1, acc, pd);
      } else {
        ObjectLocal(tokens, extra, i, acc, pd);
      }
    }
  }

  lemma {:induction false} ArrayLocal(tokens: seq<string>, extra: seq<string>, i: nat, acc: seq<Value>, pd: DoubleParser)
    requires i <= |tokens| && ArrayAt(tokens, i, acc, pd).Ok?
    ensures ArrayAt(tokens + extra, i, acc, pd) == ArrayAt(tokens, i, acc, pd)
    decreases |tokens| - i, 1
  {
    AppendIndex(tokens, extra, i);
    if JavaText.Trim(tokens[i]) != "]" {
      ValueLocal(tokens, extra, i, pd);
      var p := ValueAt(tokens, i, pd).value;
      ArrayRestLocal(tokens, extra, p.next, acc + [p.tree], pd);
    }
  }

  lemma {:induction false} ArrayRestLocal(tokens: seq<string>, extra: seq<string>, i: nat, acc: seq<Value>, pd: DoubleParser)
    requires i <= |tokens| && ArrayRest(tokens, i, acc, pd).Ok?
    ensures ArrayRest(tokens + extra, i, acc, pd) == ArrayRest(tokens, i, acc, pd)
    decreases |tokens| - i, 2
  {
    AppendIndex(tokens, extra, i);
    if tokens[i] == "," {
      ArrayLocal(tokens, extra, i + 1, acc, pd);
    } else {
      ArrayLocal(tokens, extra, i, acc, pd);
    }
  }

  /** toMap ignores whatever follows a root object it can read. */
  lemma TrailingIgnored(tokens: seq<string>, extra: seq<string>, pd: DoubleParser)
    requires ParseTokens(tokens, pd).Ok?
    ensures ParseTokens(tokens + extra, pd) == ParseTokens(tokens, pd)
  {
    AppendIndex(tokens, extra, 0);
    ObjectLocal(tokens, extra, 1, [], pd);
  }

  /** The entries of a map being built are well formed. */
  predicate GoodEntries(es: seq<Entry>) {
    UniqueKeys(es) && forall k :: 0 <= k < |es| ==> WellFormed(es[k].value)
  }

  /** Putting a well-formed value into well-formed entries keeps them so. */
  lemma PutGood(es: seq<Entry>, k: string, v: Value)
    requires GoodEntries(es) && WellFormed(v)
    ensures GoodEntries(Put(es, k, v))
  {
    PutUnique(es, k, v);
    PutEntries(es, k, v);
    var r := Put(es, k, v);
    forall m | 0 <= m < |r|
      ensures WellFormed(r[m].value)
    {
      assert r[m] in r;
    }
  }

  /** Every map toMap builds, at any depth, has unique keys: a repeated key
      replaces the earlier entry instead of adding a second one. */
  lemma {:induction false} ValueWellFormed(tokens: seq<string>, i: nat, pd: DoubleParser)
    requires i < |tokens| && ValueAt(tokens, i, pd).Ok?
    ensures WellFormed(ValueAt(tokens, i, pd).value.tree)
    decreases |tokens| - i, 0
  {
    var t := JavaText.Trim(tokens[i]);
    if t == "{" {
      ObjectWellFormed(tokens, i + 1, [], pd);
    } else if t == "[" {
      ArrayWellFormed(tokens, i + 1, [], pd);
    }
  }

  lemma {:induction false} ObjectWellFormed(tokens: seq<string>, i: nat, acc: seq<Entry>, pd: DoubleParser)
    requires i <= |tokens| && GoodEntries(acc) && ObjectAt(tokens, i, acc, pd).Ok?
    ensures WellFormed(ObjectAt(tokens, i, acc, pd).value.tree)
    decreases |tokens| - i, 1
  {
    var t := JavaText.Trim(tokens[i]);
    if t != "}" {
      ValueWellFormed(tokens, i + 2, pd);
      var p := ValueAt(tokens, i + 2, pd).value;
      PutGood(acc, Unquote(t).value, p.tree);
      ObjectRestWellFormed(tokens, p.next, Put(acc, Unquote(t).value, p.tree), pd);
    }
  }

  lemma {:induction false} ObjectRestWellFormed(tokens: seq<string>, i: nat, acc: seq<Entry>, pd: DoubleParser)
    requires i <= |tokens| && GoodEntries(acc) && ObjectRest(tokens, i, acc, pd).Ok?
    ensures WellFormed(ObjectRest(tokens, i, acc, pd).value.tree)
    decreases |tokens| - i, 2
  {
    if i < |tokens| && tokens[i] == "," {
      ObjectWellFormed(tokens, i + 1, acc, pd);
    } else {
      ObjectWellFormed(tokens, i, acc, pd);
    }
  }

  lemma {:induction false} ArrayWellFormed(tokens: seq<string>, i: nat, acc: seq<Value>, pd: DoubleParser)
    requires i <= |tokens| && (forall k :: 0 <= k < |acc| ==> WellFormed(acc[k])) && ArrayAt(tokens, i, acc, pd).Ok?
    ensures WellFormed(ArrayAt(tokens, i, acc, pd).value.tree)
    decreases |tokens| - i, 1
  {
    if JavaText.Trim(tokens[i]) != "]" {
      ValueWellFormed(tokens, i, pd);
      var p := ValueAt(tokens, i, pd).value;
      assert forall k :: 0 <= k < |acc + [p.tree]| ==> WellFormed((acc + [p.tree])[k]);
      ArrayRestWellFormed(tokens, p.next, acc + [p.tree], pd);
    }
  }

  lemma {:induction false} ArrayRestWellFormed(tokens: seq<string>, i: nat, acc: seq<Value>, pd: DoubleParser)
    requires i <= |tokens| && (forall k :: 0 <= k < |acc| ==> WellFormed(acc[k])) && ArrayRest(tokens, i, acc, pd).Ok?
    ensures WellFormed(ArrayRest(tokens, i, acc, pd).value.tree)
    decreases |tokens| - i, 2
  {
    if tokens[i] == "," {
      ArrayWellFormed(tokens, i + 1, acc, pd);
    } else {
      ArrayWellFormed(tokens, i, acc, pd);
    }
  }

  /** The map toMap returns has unique keys at every depth. */
  lemma DocumentWellFormed(tokens: seq<string>, pd: DoubleParser)
    requires ParseTokens(tokens, pd).Ok?
    ensures WellFormed(ParseTokens(tokens, pd).value)
  {
    ObjectWellFormed(tokens, 1, [], pd);
  }

  /** A key token: trim leaves it alone and unquoting gives back the key. */
  lemma QuotedKey(k: string)
    ensures JavaText.Trim("\"" + k + "\"") == "\"" + k + "\""
    ensures IsQuoted("\"" + k + "\"") && Unquote("\"" + k + "\"") == Ok(k)
  {
    var q := "\"" + k + "\"";
    JavaText.TrimKeeps(q);
    assert q[1..|q| - 1] == k;
  }

  /** A one-digit token is read as that Integer. */
  lemma DigitToken(tokens: seq<string>, i: nat, c: char, n: int32, pd: DoubleParser)
    requires '0' <= c <= '9' && n as int == c as int - '0' as int && i < |tokens| && tokens[i] == [c]
    ensures ValueAt(tokens, i, pd) == Ok(Parsed(Int(n), i + 1))
  {
    var t := tokens[i];
    JavaText.TrimKeeps(t);
    assert t[..0] == [];
    assert JavaText.DecimalValue(t) == n as int;
    assert '.' !in t;
  }

  /** {1:2}: a bare token where a key belongs matches no branch of
      parseObject's loop, which then never ends. */
  lemma BareKeyDiverges(pd: DoubleParser)
    ensures ParseTokens(["{", "1", ":", "2", "}"], pd) == Err(Diverges)
  {
    JavaText.TrimKeeps("1");
  }

  /** {"a":[1 ends right after an element: parseArray reads one token past
      the end instead of reporting the missing ']'. */
  lemma ArrayCutAfterElement(pd: DoubleParser)
    ensures ParseTokens(["{", "\"a\"", ":", "[", "1"], pd) == Err(IndexOutOfBounds)
  {
  }

  /** One turn of parseObject's loop over a quoted key, ':' and a
      one-digit number. */
  lemma DigitEntry(ts: seq<string>, i: nat, acc: seq<Entry>, key: string, c: char, n: int32, pd: DoubleParser)
    requires '0' <= c <= '9' && n as int == c as int - '0' as int && i + 3 <= |ts|
    requires ts[i] == "\"" + key + "\"" && ts[i + 1] == ":" && ts[i + 2] == [c]
    ensures ObjectAt(ts, i, acc, pd) == ObjectRest(ts, i + 3, Put(acc, key, Int(n)), pd)
  {
    QuotedKey(key);
    DigitToken(ts, i + 2, c, n, pd);
    ObjectStep(ts, i, acc, key, Int(n), i + 3, pd);
  }

  /** A put into one entry with another key appends. */
  lemma PutOther(e: Entry, k: string, v: Value)
    requires e.key != k
    ensures Put([e], k, v) == [e, Entry(k, v)]
  {
    assert [e][1..] == [];
  }

  /** A put of the first of two keys replaces that entry in place. */
  lemma PutFirst(e: Entry, f: Entry, v: Value)
    ensures Put([e, f], e.key, v) == [Entry(e.key, v), f]
  {
    assert [e, f][1..] == [f];
  }

  /** A whole turn that ends in a ',': the cursor moves past it. */
  lemma DigitEntryComma(ts: seq<string>, i: nat, acc: seq<Entry>, key: string, c: char, n: int32, pd: DoubleParser)
    requires '0' <= c <= '9' && n as int == c as int - '0' as int && i + 4 <= |ts|
    requires ts[i] == "\"" + key + "\"" && ts[i + 1] == ":" && ts[i + 2] == [c]
    requires ts[i + 3] == ","
    ensures ObjectAt(ts, i, acc, pd) == ObjectAt(ts, i + 4, Put(acc, key, Int(n)), pd)
  {
    DigitEntry(ts, i, acc, key, c, n, pd);
    ObjectComma(ts, i + 3, Put(acc, key, Int(n)), i + 4, pd);
  }

  /** A turn after the first entry, with a new key, appends. */
  lemma NextEntry(ts: seq<string>, i: nat, e: Entry, key: string, c: char, n: int32, pd: DoubleParser)
    requires '0' <= c <= '9' && n as int == c as int - '0' as int && i + 4 <= |ts| && e.key != key
    requires ts[i] == "\"" + key + "\"" && ts[i + 1] == ":" && ts[i + 2] == [c] && ts[i + 3] == ","
    ensures ObjectAt(ts, i, [e], pd) == ObjectAt(ts, i + 4, [e, Entry(key, Int(n))], pd)
  {
    DigitEntryComma(ts, i, [e], key, c, n, pd);
    PutOther(e, key, Int(n));
  }

  /** The first two turns over {"a":1,"b":2,... put "a" and then "b". */
  lemma TwoEntries(ts: seq<string>, pd: DoubleParser)
    requires |ts| >= 9
    requires ts[1] == "\"" + "a" + "\"" && ts[2] == ":" && ts[3] == "1" && ts[4] == ","
    requires ts[5] == "\"" + "b" + "\"" && ts[6] == ":" && ts[7] == "2" && ts[8] == ","
    ensures ObjectAt(ts, 1, [], pd) == ObjectAt(ts, 9, [Entry("a", Int(1)), Entry("b", Int(2))], pd)
  {
    DigitEntryComma(ts, 1, [], "a", '1', 1, pd);
    assert "a" != "b" by { assert "a"[0] != "b"[0]; }
    NextEntry(ts, 5, Entry("a", Int(1)), "b", '2', 2, pd);
  }

  /** The last turn over ..."a":3} puts "a" again, in its first place. */
  lemma RepeatedEntry(ts: seq<string>, pd: DoubleParser)
    requires |ts| == 13
    requires ts[9] == "\"" + "a" + "\"" && ts[10] == ":" && ts[11] == "3" && ts[12] == "}"
    ensures ObjectAt(ts, 9, [Entry("a", Int(1)), Entry("b", Int(2))], pd)
      == Ok(Parsed(Obj([Entry("a", Int(3)), Entry("b", Int(2))]), 13))
  {
    var a1, b2, a3 := Entry("a", Int(1)), Entry("b", Int(2)), Entry("a", Int(3));
    DigitEntry(ts, 9, [a1, b2], "a", '3', 3, pd);
    PutFirst(a1, b2, Int(3));
    ObjectComma(ts, 12, [a3, b2], 12, pd);
    JavaText.TrimKeeps("}");
  }

  /** The tokens of {"a":1,"b":2,"a":3}: "a" keeps its place and takes 3. */
  lemma RepeatedKeyParse(ts: seq<string>, pd: DoubleParser)
    requires |ts| == 13 && ts[0] == "{"
    requires ts[1] == "\"" + "a" + "\"" && ts[2] == ":" && ts[3] == "1" && ts[4] == ","
    requires ts[5] == "\"" + "b" + "\"" && ts[6] == ":" && ts[7] == "2" && ts[8] == ","
    requires ts[9] == "\"" + "a" + "\"" && ts[10] == ":" && ts[11] == "3" && ts[12] == "}"
    ensures ParseTokens(ts, pd) == Ok(Obj([Entry("a", Int(3)), Entry("b", Int(2))]))
  {
    TwoEntries(ts, pd);
    RepeatedEntry(ts, pd);
  }

  /** A repeated key keeps its place and takes the last value. */
  lemma LastWriteWins(pd: DoubleParser)
    ensures ParseTokens(["{", "\"a\"", ":", "1", ",", "\"b\"", ":", "2", ",", "\"a\"", ":", "3", "}"], pd)
      == Ok(Obj([Entry("a", Int(3)), Entry("b", Int(2))]))
  {
    assert "\"a\"" == "\"" + "a" + "\"";
    assert "\"b\"" == "\"" + "b" + "\"";
    RepeatedKeyParse(["{", "\"a\"", ":", "1", ",", "\"b\"", ":", "2", ",", "\"a\"", ":", "3", "}"], pd);
  }

  /** A key must be followed by exactly ':'. */
  lemma ColonExpected(pd: DoubleParser)
    ensures ParseTokens(["{", "\"a\"", "1", "}"], pd) == Err(ExpectedColon)
  {
    QuotedKey("a");
    assert "\"a\"" == "\"" + "a" + "\"";
  }

  /** The tokens end right after the ':'. */
  lemma ValueMissing(pd: DoubleParser)
    ensures ParseTokens(["{", "\"a\"", ":"], pd) == Err(MissingValue)
  {
    QuotedKey("a");
    assert "\"a\"" == "\"" + "a" + "\"";
  }

  /** The tokens end where a ',' or '}' belongs. */
  lemma ObjectUnterminated(pd: DoubleParser)
    ensures ParseTokens(["{", "\"a\"", ":", "1"], pd) == Err(UnterminatedObject)
  {
    QuotedKey("a");
    assert "\"a\"" == "\"" + "a" + "\"";
    DigitToken(["{", "\"a\"", ":", "1"], 3, '1', 1, pd);
  }

  /** The tokens end before the first element of a list. */
  lemma ArrayUnterminated(pd: DoubleParser)
    ensures ParseTokens(["{", "\"a\"", ":", "["], pd) == Err(UnterminatedArray)
  {
    QuotedKey("a");
    assert "\"a\"" == "\"" + "a" + "\"";
  }

  /** NaN and Infinity are refused as values. */
  lemma NaNRefused(pd: DoubleParser)
    ensures ParseTokens(["{", "\"a\"", ":", "NaN", "}"], pd) == Err(UnsupportedLiteral)
  {
    QuotedKey("a");
    assert "\"a\"" == "\"" + "a" + "\"";
    JavaText.TrimKeeps("NaN");
  }

  lemma InfinityRefused(pd: DoubleParser)
    ensures ParseTokens(["{", "\"a\"", ":", "Infinity", "}"], pd) == Err(UnsupportedLiteral)
  {
    QuotedKey("a");
    assert "\"a\"" == "\"" + "a" + "\"";
    JavaText.TrimKeeps("Infinity");
  }

  /** A key that is one lone '"' passes the quote test and then fails to be cut. */
  lemma LoneQuoteKey(pd: DoubleParser)
    ensures ParseTokens(["{", "\"", ":", "1", "}"], pd) == Err(SubstringOutOfRange)
  {
    JavaText.TrimKeeps("\"");
  }

  /** A '}' inside a list is handed to parseNumber. */
  lemma BraceInList(pd: DoubleParser)
    ensures ParseTokens(["{", "\"a\"", ":", "[", "}"], pd) == Err(InvalidNumber)
  {
    QuotedKey("a");
    assert "\"a\"" == "\"" + "a" + "\"";
    JavaText.TrimKeeps("}");
    assert JavaText.ParseInt("}") == None;
  }

  /** One ',' before the '}' is allowed. */
  lemma TrailingComma(pd: DoubleParser)
    ensures ParseTokens(["{", "\"a\"", ":", "1", ",", "}"], pd) == Ok(Obj([Entry("a", Int(1))]))
  {
    var ts := ["{", "\"a\"", ":", "1", ",", "}"];
    QuotedKey("a");
    assert "\"a\"" == "\"" + "a" + "\"";
    DigitToken(ts, 3, '1', 1, pd);
    ObjectStep(ts, 1, [], "a", Int(1), 4, pd);
    ObjectComma(ts, 4, [Entry("a", Int(1))], 5, pd);
  }

  /** A list or a scalar cannot be the root. */
  lemma RootNotObject(pd: DoubleParser)
    ensures ParseTokens(["[", "1", "]"], pd) == Err(MalformedDocument)
    ensures ParseTokens(["1"], pd) == Err(MalformedDocument)
    ensures ParseTokens([], pd) == Err(MalformedDocument)
  {
  }

  /** Integer.parseInt takes no exponent. */
  lemma ExponentRefused(pd: DoubleParser)
    ensures ParseNumber("1e5", pd) == Err(InvalidNumber)
  {
    assert !JavaText.IsDigit("1e5"[1]);
  }

  /** One more digit multiplies the value by ten and adds the digit. */
  lemma DecimalSnoc(s: string, c: char)
    requires JavaText.AllDigits(s) && JavaText.IsDigit(c)
    ensures JavaText.AllDigits(s + [c])
    ensures JavaText.DecimalValue(s + [c]) == 10 * JavaText.DecimalValue(s) + (c as int - '0' as int)
  {
    assert (s + [c])[..|s|] == s;
  }

  /** The digits of 2^31, one past the largest int. */
  lemma DecimalEdge()
    ensures JavaText.AllDigits("2147483648") && JavaText.DecimalValue("2147483648") == 0x8000_0000
  {
    DecimalSnoc("", '2'); assert "" + ['2'] == "2";
    DecimalSnoc("2", '1'); assert "2" + ['1'] == "21";
    DecimalSnoc("21", '4'); assert "21" + ['4'] == "214";
    DecimalSnoc("214", '7'); assert "214" + ['7'] == "2147";
    DecimalSnoc("2147", '4'); assert "2147" + ['4'] == "21474";
    DecimalSnoc("21474", '8'); assert "21474" + ['8'] == "214748";
    DecimalSnoc("214748", '3'); assert "214748" + ['3'] == "2147483";
    DecimalSnoc("2147483", '6'); assert "2147483" + ['6'] == "21474836";
    DecimalSnoc("21474836", '4'); assert "21474836" + ['4'] == "214748364";
    DecimalSnoc("214748364", '8'); assert "214748364" + ['8'] == "2147483648";
  }

  /** Integer.parseInt refuses a value one past the int range and takes the
      least int, with its sign. */
  lemma RangeEdges(pd: DoubleParser)
    ensures ParseNumber("2147483648", pd) == Err(InvalidNumber)
    ensures ParseNumber("-2147483648", pd) == Ok(Int(-0x8000_0000))
  {
    DecimalEdge();
    assert "-2147483648"[1..] == "2147483648";
  }

  /** A leading '+' is allowed. */
  lemma PlusSign(pd: DoubleParser)
    ensures ParseNumber("+7", pd) == Ok(Int(7))
  {
    assert "+7"[1..] == "7";
    assert "7"[..0] == [];
  }

  /** Whitespace outside quotes is dropped without ending the bare run. */
  lemma SpaceJoinsRun()
    ensures JsonTokenizer.Tokens("tr ue") == ["true"]
  {
    JsonTokenizer.WhitespaceIgnored("tr", ' ', "ue");
    assert "tr" + [' '] + "ue" == "tr ue";
    assert "tr" + "ue" == "true";
    JsonTokenizer.BareToken("true");
  }

  /** A closing quote does not end the token. */
  lemma ClosingQuoteKeepsRun()
    ensures JsonTokenizer.Tokens("\"a\"b") == ["\"a\"b"]
  {
    JsonTokenizer.QuoteThenBare("a", "b");
    assert "\"" + "a" + "\"" + "b" == "\"a\"b";
  }

  /** The tokens of 2}. */
  lemma DigitBraceTokens()
    ensures JsonTokenizer.Tokens("2}") == ["2", "}"]
  {
    JsonTokenizer.StructuralSplits("2", '}', "");
    assert "2" + ['}'] + "" == "2}";
    JsonTokenizer.BareToken("2");
  }

  /** The tokens of 1:2}. */
  lemma BareEntryTokens()
    ensures JsonTokenizer.Tokens("1:2}") == ["1", ":", "2", "}"]
  {
    JsonTokenizer.StructuralSplits("1", ':', "2}");
    assert "1" + [':'] + "2}" == "1:2}";
    JsonTokenizer.BareToken("1");
    DigitBraceTokens();
  }

  /** The tokens of {1:2}. */
  lemma BareKeyTokens()
    ensures JsonTokenizer.Tokens("{1:2}") == ["{", "1", ":", "2", "}"]
  {
    JsonTokenizer.StructuralSplits("", '{', "1:2}");
    assert "" + ['{'] + "1:2}" == "{1:2}";
    BareEntryTokens();
  }

  /** toMap on the text {1:2} never returns. */
  lemma BareKeyText(pd: DoubleParser)
    ensures ParseDocument("{1:2}", pd) == Err(Diverges)
  {
    BareKeyTokens();
    BareKeyDiverges(pd);
  }

  /** toMap on the text {} returns the empty map. */
  lemma EmptyDocument(pd: DoubleParser)
    ensures ParseDocument("{}", pd) == Ok(Obj([]))
  {
    JsonTokenizer.StructuralSplits("", '{', "}");
    assert "" + ['{'] + "}" == "{}";
    JsonTokenizer.StructuralSplits("", '}', "");
    assert "" + ['}'] + "" == "}";
    JavaText.TrimKeeps("}");
  }
}

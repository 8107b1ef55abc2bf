/** JsonTokenizer.tokenize: one left-to-right scan with a quote flag and a
    pending-token buffer, cutting JSON text into structural characters,
    quoted runs and bare runs. */
module JsonTokenizer {
  import opened JavaText

  /** The six characters that are tokens of their own outside quotes. */
  predicate IsStructural(c: char) {
    c == '{' || c == '}' || c == '[' || c == ']' || c == ',' || c == ':'
  }

  /** The scanner's state: the tokens emitted so far, the pending buffer
      (the StringBuilder) and whether the scan is inside quotes. */
  datatype Scan = Scan(tokens: seq<string>, buf: string, inQuotes: bool)

  const Start: Scan := Scan([], "", false)

  /** Append the buffer as a token unless it is empty. */
  function Flush(tokens: seq<string>, buf: string): seq<string> {
    if |buf| > 0 then tokens + [buf] else tokens
  }

  /** What one iteration of the loop does with character ch. */
  function Step(st: Scan, ch: char): Scan {
    if ch == '"' then Scan(st.tokens, st.buf + [ch], !st.inQuotes)
    else if st.inQuotes then Scan(st.tokens, st.buf + [ch], true)
    else if IsWhitespace(ch) then st
    else if IsStructural(ch) then Scan(Flush(st.tokens, st.buf) + [[ch]], "", false)
    else Scan(st.tokens, st.buf + [ch], false)
  }

  /** The state after scanning all of s from st. */
  function Run(st: Scan, s: string): Scan
    decreases |s|
  {
    if |s| == 0 then st else Run(Step(st, s[0]), s[1..])
  }

  /** The token list tokenize returns: the scan, then the final flush. */
  function Tokens(json: string): seq<string> {
    var st := Run(Start, json);
    Flush(st.tokens, st.buf)
  }

  method Tokenize(json: string) returns (tokens: seq<string>)
    ensures tokens == Tokens(json)
  {
    tokens := [];
    var token := "";
    var inQuotes := false;
    for i := 0 to |json|
      invariant Run(Scan(tokens, token, inQuotes), json[i..]) == Run(Start, json)
    {
      var ch := json[i];
      assert json[i..] == [ch] + json[i + 1..];
      if ch == '"' {
        token := token + [ch];
        inQuotes := !inQuotes;
      } else if inQuotes {
        token := token + [ch];
      } else {
        if IsWhitespace(ch) {
          continue;
        }
        if IsStructural(ch) {
          if |token| > 0 {
            tokens := tokens + [token];
            token := "";
          }
          tokens := tokens + [[ch]];
        } else {
          token := token + [ch];
        }
      }
    }
    if |token| > 0 {
      tokens := tokens + [token];
    }
  }

  // ---------------------------------------------------------------------
  // What the token list is, independently of how the scan computes it.

  /** The number of '"' characters in s. */
  function Quotes(s: string): nat {
    if |s| == 0 then 0 else Quotes(s[..|s| - 1]) + (if s[|s| - 1] == '"' then 1 else 0)
  }

  /** Whether position k of a token lies outside quotes, counting from the token's start. */
  predicate OutsideAt(t: string, k: nat)
    requires k <= |t|
  {
    Quotes(t[..k]) % 2 == 0
  }

  /** The concatenation of the tokens. */
  function Concat(ts: seq<string>): string {
    if |ts| == 0 then "" else Concat(ts[..|ts| - 1]) + ts[|ts| - 1]
  }

  /** The text s with every whitespace character outside quotes removed;
      inQuotes says whether s begins inside quotes. */
  function Unspaced(s: string, inQuotes: bool): string
    decreases |s|
  {
    if |s| == 0 then ""
    else if s[0] == '"' then [s[0]] + Unspaced(s[1..], !inQuotes)
    else if !inQuotes && IsWhitespace(s[0]) then Unspaced(s[1..], inQuotes)
    else [s[0]] + Unspaced(s[1..], inQuotes)
  }

  /** A structural token: one of the six characters on its own. */
  predicate IsStructToken(t: string) {
    |t| == 1 && IsStructural(t[0])
  }

  /** No character of t outside its quotes is structural or whitespace. */
  predicate Unbroken(t: string) {
    forall k {:trigger OutsideAt(t, k)} :: 0 <= k < |t| && OutsideAt(t, k) ==> !IsStructural(t[k]) && !IsWhitespace(t[k])
  }

  /** A quoted or bare run: not empty, and no character outside its quotes
      is structural or whitespace. */
  predicate IsRunToken(t: string) {
    |t| > 0 && Unbroken(t)
  }

  /** The shape of every token list tokenize returns: each token is a
      structural token or a run, no two runs are adjacent, and every token
      but the last closes all the quotes it opens. */
  predicate Segmented(ts: seq<string>) {
    && (forall k :: 0 <= k < |ts| ==> IsStructToken(ts[k]) || IsRunToken(ts[k]))
    && (forall k :: 0 <= k < |ts| - 1 ==> IsStructToken(ts[k]) || IsStructToken(ts[k + 1]))
    && (forall k :: 0 <= k < |ts| - 1 ==> Quotes(ts[k]) % 2 == 0)
  }

  // ---------------------------------------------------------------------
  // The text of the tokens.

  lemma ConcatAppend(ts: seq<string>, t: string)
    ensures Concat(ts + [t]) == Concat(ts) + t
  {
    assert (ts + [t])[..|ts|] == ts;
  }

  lemma {:induction false} ConcatCons(t: string, ts: seq<string>)
    ensures Concat([t] + ts) == t + Concat(ts)
    decreases |ts|
  {
    if |ts| > 0 {
      var init := ts[..|ts| - 1];
      ConcatCons(t, init);
      assert ([t] + ts)[..|ts|] == [t] + init;
    }
  }

  /** One character adds itself to the text of tokens and buffer, unless it
      is whitespace outside quotes. */
  lemma StepText(st: Scan, ch: char)
    ensures Concat(Step(st, ch).tokens) + Step(st, ch).buf
         == Concat(st.tokens) + st.buf + (if ch != '"' && !st.inQuotes && IsWhitespace(ch) then "" else [ch])
  {
    if ch != '"' && !st.inQuotes && !IsWhitespace(ch) && IsStructural(ch) {
      if |st.buf| > 0 {
        ConcatAppend(st.tokens, st.buf);
        ConcatAppend(st.tokens + [st.buf], [ch]);
      } else {
        ConcatAppend(st.tokens, [ch]);
      }
    }
  }

  lemma {:induction false} RunText(st: Scan, s: string)
    ensures Concat(Run(st, s).tokens) + Run(st, s).buf == Concat(st.tokens) + st.buf + Unspaced(s, st.inQuotes)
    decreases |s|
  {
    if |s| > 0 {
      StepText(st, s[0]);
      RunText(Step(st, s[0]), s[1..]);
    }
  }

  /** The tokens, put back together, are the input without the whitespace
      outside quotes: nothing else is lost, added or reordered. */
  lemma TokensText(json: string)
    ensures Concat(Tokens(json)) == Unspaced(json, false)
  {
    RunText(Start, json);
    var st := Run(Start, json);
    assert Concat(st.tokens) + st.buf == Unspaced(json, false);
    if |st.buf| > 0 {
      ConcatAppend(st.tokens, st.buf);
    } else {
      assert st.buf == [];
    }
  }

  // ---------------------------------------------------------------------
  // The shape of the tokens.

  /** What holds of every state the scan reaches: the tokens so far are
      segmented and end with a structural token, the buffer is a run in the
      making, and the quote flag is the parity of the buffer's quotes. */
  ghost predicate Good(st: Scan) {
    && Segmented(st.tokens)
    && (|st.tokens| > 0 ==> IsStructToken(st.tokens[|st.tokens| - 1]))
    && Unbroken(st.buf)
    && (Quotes(st.buf) % 2 == 1) == st.inQuotes
  }

  lemma QuotesAppend(s: string, ch: char)
    ensures Quotes(s + [ch]) == Quotes(s) + (if ch == '"' then 1 else 0)
  {
    assert (s + [ch])[..|s|] == s;
  }

  lemma UnbrokenAppend(t: string, ch: char)
    requires Unbroken(t)
    requires OutsideAt(t, |t|) ==> !IsStructural(ch) && !IsWhitespace(ch)
    ensures Unbroken(t + [ch])
  {
    var u := t + [ch];
    forall k | 0 <= k < |u| && OutsideAt(u, k)
      ensures !IsStructural(u[k]) && !IsWhitespace(u[k])
    {
      if k < |t| {
        assert u[..k] == t[..k] && u[k] == t[k];
        assert OutsideAt(t, k);
      } else {
        assert u[..k] == t == t[..|t|];
      }
    }
  }

  lemma SegmentedAppend(ts: seq<string>, t: string)
    requires Segmented(ts)
    requires IsStructToken(t) || IsRunToken(t)
    requires |ts| > 0 ==> (IsStructToken(ts[|ts| - 1]) || IsStructToken(t)) && Quotes(ts[|ts| - 1]) % 2 == 0
    ensures Segmented(ts + [t])
  {
    var u := ts + [t];
    assert forall k :: 0 <= k < |ts| ==> u[k] == ts[k];
  }

  lemma StructQuotes(t: string)
    requires IsStructToken(t)
    ensures Quotes(t) == 0
  {
    assert t[..0] == [];
  }

  /** Appending to the buffer keeps a good state good. */
  lemma AppendGood(st: Scan, ch: char)
    requires Good(st)
    requires ch == '"' || st.inQuotes || (!IsWhitespace(ch) && !IsStructural(ch))
    ensures Good(Scan(st.tokens, st.buf + [ch], if ch == '"' then !st.inQuotes else st.inQuotes))
  {
    assert st.buf[..|st.buf|] == st.buf;
    QuotesAppend(st.buf, ch);
    UnbrokenAppend(st.buf, ch);
  }

  /** A structural character outside quotes keeps a good state good. */
  lemma StructGood(st: Scan, ch: char)
    requires Good(st) && !st.inQuotes && IsStructural(ch)
    ensures Good(Scan(Flush(st.tokens, st.buf) + [[ch]], "", false))
  {
    var n := |st.tokens|;
    if n > 0 {
      StructQuotes(st.tokens[n - 1]);
    }
    var flushed := Flush(st.tokens, st.buf);
    if |st.buf| > 0 {
      SegmentedAppend(st.tokens, st.buf);
      assert flushed[|flushed| - 1] == st.buf;
    }
    assert |flushed| > 0 ==> Quotes(flushed[|flushed| - 1]) % 2 == 0;
    SegmentedAppend(flushed, [ch]);
    assert Quotes("") == 0;
  }

  lemma StepGood(st: Scan, ch: char)
    requires Good(st)
    ensures Good(Step(st, ch))
  {
    if ch == '"' || st.inQuotes || (!IsWhitespace(ch) && !IsStructural(ch)) {
      AppendGood(st, ch);
    } else if !IsWhitespace(ch) {
      StructGood(st, ch);
    }
  }

  lemma {:induction false} RunGood(st: Scan, s: string)
    requires Good(st)
    ensures Good(Run(st, s))
    decreases |s|
  {
    if |s| > 0 {
      StepGood(st, s[0]);
      RunGood(Step(st, s[0]), s[1..]);
    }
  }

  /** Every token list tokenize returns is segmented; in particular no
      token is empty. */
  lemma TokensSegmented(json: string)
    ensures Segmented(Tokens(json))
    ensures forall k :: 0 <= k < |Tokens(json)| ==> |Tokens(json)[k]| > 0
  {
    assert Quotes("") == 0;
    RunGood(Start, json);
    var st := Run(Start, json);
    var n := |st.tokens|;
    if n > 0 {
      StructQuotes(st.tokens[n - 1]);
    }
    if |st.buf| > 0 {
      SegmentedAppend(st.tokens, st.buf);
    }
  }

  // ---------------------------------------------------------------------
  // Tokens(json) is the only segmented token list whose text is the input
  // without outside whitespace.

  lemma ConcatNonEmpty(ts: seq<string>)
    requires Segmented(ts) && |ts| > 0
    ensures |Concat(ts)| >= |ts[0]| > 0
  {
    ConcatCons(ts[0], ts[1..]);
    assert ts == [ts[0]] + ts[1..];
  }

  lemma SegmentedTail(ts: seq<string>)
    requires Segmented(ts) && |ts| > 0
    ensures Segmented(ts[1..])
  {
    var r := ts[1..];
    assert forall k :: 0 <= k < |r| ==> r[k] == ts[k + 1];
  }

  /** The first token is where the text of a token list begins. */
  lemma ConcatHead(ts: seq<string>)
    requires |ts| > 0
    ensures |ts[0]| <= |Concat(ts)|
    ensures Concat(ts)[..|ts[0]|] == ts[0]
    ensures Concat(ts)[|ts[0]|..] == Concat(ts[1..])
  {
    ConcatCons(ts[0], ts[1..]);
    assert ts == [ts[0]] + ts[1..];
  }

  /** A run cannot begin with a structural character: position 0 is outside quotes. */
  lemma RunStartsPlain(b: string)
    requires IsRunToken(b)
    ensures !IsStructural(b[0])
  {
    assert b[..0] == [];
    assert OutsideAt(b, 0);
  }

  /** A run cannot extend past a prefix a that closes its quotes when the
      character after a is structural. */
  lemma RunNotPast(a: string, b: string)
    requires IsRunToken(b) && |a| < |b| && b[..|a|] == a
    requires Quotes(a) % 2 == 0
    ensures !IsStructural(b[|a|])
  {
    assert OutsideAt(b, |a|);
  }

  /** In a segmented list, a run at the head is followed by a structural
      token, whose character comes right after the run in the text. */
  lemma AfterHeadRun(ts: seq<string>)
    requires Segmented(ts) && |ts| > 0 && !IsStructToken(ts[0])
    requires |ts[0]| < |Concat(ts)|
    ensures Quotes(ts[0]) % 2 == 0
    ensures IsStructural(Concat(ts)[|ts[0]|])
  {
    var a := ts[0];
    var rest := ts[1..];
    ConcatHead(ts);
    assert |rest| > 0;
    assert IsStructToken(ts[1]);
    ConcatHead(rest);
    assert rest[0] == ts[1];
    assert Concat(ts)[|a|] == Concat(rest)[0] == Concat(rest)[..1][0];
  }

  /** When the first token of one list is shorter than the first of another
      with the same text, it is a prefix of it. */
  lemma HeadPrefix(ts1: seq<string>, ts2: seq<string>)
    requires |ts1| > 0 && |ts2| > 0 && Concat(ts1) == Concat(ts2)
    requires |ts1[0]| < |ts2[0]|
    ensures |ts1[0]| < |Concat(ts1)|
    ensures ts2[0][..|ts1[0]|] == ts1[0] && ts2[0][|ts1[0]|] == Concat(ts1)[|ts1[0]|]
  {
    ConcatHead(ts1);
    ConcatHead(ts2);
  }

  /** Two segmented lists with the same text start with equally long tokens
      (here: the first's is not shorter). */
  lemma HeadNotShorter(ts1: seq<string>, ts2: seq<string>)
    requires Segmented(ts1) && Segmented(ts2) && |ts1| > 0 && |ts2| > 0
    requires Concat(ts1) == Concat(ts2)
    ensures |ts1[0]| >= |ts2[0]|
  {
    var a, b := ts1[0], ts2[0];
    if |a| < |b| {
      HeadPrefix(ts1, ts2);
      assert IsRunToken(b);
      if IsStructToken(a) {
        RunStartsPlain(b);
      } else {
        AfterHeadRun(ts1);
        RunNotPast(a, b);
      }
    }
  }

  lemma {:induction false} SegmentedUnique(ts1: seq<string>, ts2: seq<string>)
    requires Segmented(ts1) && Segmented(ts2)
    requires Concat(ts1) == Concat(ts2)
    ensures ts1 == ts2
    decreases |ts1|
  {
    if |ts1| == 0 || |ts2| == 0 {
      if |ts1| > 0 { ConcatNonEmpty(ts1); }
      if |ts2| > 0 { ConcatNonEmpty(ts2); }
    } else {
      HeadNotShorter(ts1, ts2);
      HeadNotShorter(ts2, ts1);
      var a := ts1[0];
      ConcatCons(a, ts1[1..]);
      ConcatCons(ts2[0], ts2[1..]);
      assert ts1 == [a] + ts1[1..] && ts2 == [ts2[0]] + ts2[1..];
      var w := Concat(ts1);
      assert ts2[0] == w[..|a|] == a;
      assert Concat(ts1[1..]) == w[|a|..] == Concat(ts2[1..]);
      SegmentedTail(ts1);
      SegmentedTail(ts2);
      SegmentedUnique(ts1[1..], ts2[1..]);
    }
  }

  /** tokenize is characterised without reference to its loop: its result is
      exactly the segmented token list whose text is the input without the
      whitespace outside quotes. */
  lemma TokensCharacterised(json: string, ts: seq<string>)
    ensures ts == Tokens(json) <==> Segmented(ts) && Concat(ts) == Unspaced(json, false)
  {
    TokensSegmented(json);
    TokensText(json);
    if Segmented(ts) && Concat(ts) == Unspaced(json, false) {
      SegmentedUnique(ts, Tokens(json));
    }
  }

  // ---------------------------------------------------------------------
  // How the scan composes.

  lemma {:induction false} RunConcat(st: Scan, x: string, y: string)
    ensures Run(st, x + y) == Run(Run(st, x), y)
    decreases |x|
  {
    if |x| == 0 {
      assert x + y == y;
    } else {
      assert (x + y)[0] == x[0] && (x + y)[1..] == x[1..] + y;
      RunConcat(Step(st, x[0]), x[1..], y);
    }
  }

  /** Tokens already emitted are never looked at again. */
  lemma {:induction false} RunKeepsTokens(pre: seq<string>, st: Scan, s: string)
    ensures Run(Scan(pre + st.tokens, st.buf, st.inQuotes), s)
         == Scan(pre + Run(st, s).tokens, Run(st, s).buf, Run(st, s).inQuotes)
    decreases |s|
  {
    if |s| > 0 {
      var st' := Step(st, s[0]);
      assert Step(Scan(pre + st.tokens, st.buf, st.inQuotes), s[0]) == Scan(pre + st'.tokens, st'.buf, st'.inQuotes) by {
        if |st.buf| > 0 {
          assert (pre + st.tokens) + [st.buf] == pre + (st.tokens + [st.buf]);
        }
      }
      RunKeepsTokens(pre, st', s[1..]);
    }
  }

  lemma {:induction false} QuotesConcat(x: string, y: string)
    ensures Quotes(x + y) == Quotes(x) + Quotes(y)
    decreases |y|
  {
    if |y| == 0 {
      assert x + y == x;
    } else {
      var init := y[..|y| - 1];
      QuotesConcat(x, init);
      assert (x + y)[..|x + y| - 1] == x + init;
    }
  }

  /** After scanning s the flag has flipped once per quote in s. */
  lemma {:induction false} RunQuoteFlag(st: Scan, s: string)
    ensures Run(st, s).inQuotes == (st.inQuotes != (Quotes(s) % 2 == 1))
    decreases |s|
  {
    if |s| > 0 {
      RunQuoteFlag(Step(st, s[0]), s[1..]);
      QuotesConcat([s[0]], s[1..]);
      assert [s[0]] + s[1..] == s;
      assert [s[0]][..0] == [];
    }
  }

  /** A structural character outside quotes cuts the token list in two: the
      tokens of what precedes it, itself, and the tokens of what follows. */
  lemma StructuralSplits(a: string, c: char, b: string)
    requires IsStructural(c) && Quotes(a) % 2 == 0
    ensures Tokens(a + [c] + b) == Tokens(a) + [[c]] + Tokens(b)
  {
    var sa := Run(Start, a);
    RunQuoteFlag(Start, a);
    RunConcat(Start, a + [c], b);
    RunConcat(Start, a, [c]);
    assert Run(sa, [c]) == Step(sa, c);
    var mid := Scan(Tokens(a) + [[c]], "", false);
    assert Step(sa, c) == mid;
    RunKeepsTokens(Tokens(a) + [[c]], Start, b);
    assert mid == Scan(Tokens(a) + [[c]] + Start.tokens, Start.buf, Start.inQuotes);
    var sb := Run(Start, b);
    if |sb.buf| > 0 {
      assert (Tokens(a) + [[c]] + sb.tokens) + [sb.buf] == Tokens(a) + [[c]] + (sb.tokens + [sb.buf]);
    }
  }

  /** Whitespace outside quotes neither appears in a token nor splits one:
      removing it changes nothing. */
  lemma WhitespaceIgnored(a: string, c: char, b: string)
    requires IsWhitespace(c) && Quotes(a) % 2 == 0
    ensures Tokens(a + [c] + b) == Tokens(a + b)
  {
    RunQuoteFlag(Start, a);
    RunConcat(Start, a + [c], b);
    RunConcat(Start, a, [c]);
    RunConcat(Start, a, b);
    assert Run(Run(Start, a), [c]) == Step(Run(Start, a), c);
  }

  /** A character outside quotes that neither toggles the flag, nor is
      dropped, nor stands alone: it extends the pending run. */
  predicate IsBare(c: char) {
    c != '"' && !IsWhitespace(c) && !IsStructural(c)
  }

  lemma {:induction false} RunBare(st: Scan, w: string)
    requires !st.inQuotes
    requires forall k :: 0 <= k < |w| ==> IsBare(w[k])
    ensures Run(st, w) == Scan(st.tokens, st.buf + w, false)
    decreases |w|
  {
    if |w| > 0 {
      RunBare(Step(st, w[0]), w[1..]);
      assert st.buf + [w[0]] + w[1..] == st.buf + w;
    }
  }

  /** Inside quotes every character but '"' is appended as it is,
      whitespace and structural characters included. */
  lemma {:induction false} RunQuoted(st: Scan, w: string)
    requires st.inQuotes && '"' !in w
    ensures Run(st, w) == Scan(st.tokens, st.buf + w, true)
    decreases |w|
  {
    if |w| > 0 {
      RunQuoted(Step(st, w[0]), w[1..]);
      assert st.buf + [w[0]] + w[1..] == st.buf + w;
    }
  }

  lemma {:induction false} QuotesNone(w: string)
    requires '"' !in w
    ensures Quotes(w) == 0
    decreases |w|
  {
    if |w| > 0 {
      QuotesNone(w[..|w| - 1]);
    }
  }

  /** A nonempty run of bare characters is a single token. */
  lemma BareToken(w: string)
    requires |w| > 0 && forall k :: 0 <= k < |w| ==> IsBare(w[k])
    ensures Tokens(w) == [w]
  {
    RunBare(Start, w);
    assert Start.buf + w == w;
  }

  lemma BareQuotes(w: string)
    requires forall k :: 0 <= k < |w| ==> IsBare(w[k])
    ensures Quotes(w) == 0
  {
    QuotesNone(w);
  }

  /** Scanning a quoted string from the start leaves it all in the buffer,
      outside quotes again. */
  lemma RunQuotedString(s: string)
    requires '"' !in s
    ensures Run(Start, "\"" + s + "\"") == Scan([], "\"" + s + "\"", false)
  {
    RunConcat(Start, "\"" + s, "\"");
    RunConcat(Start, "\"", s);
    assert Run(Start, "\"") == Scan([], "\"", true);
    RunQuoted(Scan([], "\"", true), s);
    assert Run(Start, "\"" + s) == Scan([], "\"" + s, true);
  }

  /** A quoted string is a single token. */
  lemma QuotedToken(s: string)
    requires '"' !in s
    ensures Tokens("\"" + s + "\"") == ["\"" + s + "\""]
    ensures Quotes("\"" + s + "\"") == 2
  {
    RunQuotedString(s);
    QuotesNone(s);
    QuotesConcat("\"" + s, "\"");
    QuotesConcat("\"", s);
  }

  /** The closing quote does not end the token: a bare run right after it
      belongs to the same token. */
  lemma QuoteThenBare(s: string, b: string)
    requires '"' !in s && forall k :: 0 <= k < |b| ==> IsBare(b[k])
    ensures Tokens("\"" + s + "\"" + b) == ["\"" + s + "\"" + b]
  {
    RunQuotedString(s);
    RunConcat(Start, "\"" + s + "\"", b);
    RunBare(Scan([], "\"" + s + "\"", false), b);
  }
}

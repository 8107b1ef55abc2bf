# JsonParser in Dafny

A model of the hand-written JSON converter of gasmed/JsonParser. It has two halves.

- **`JsonTokenizer.tokenize`** cuts JSON text into tokens in one left-to-right scan. It keeps a quote flag and a pending-token buffer, and emits three kinds of token:
  - the six structural characters `{ } [ ] , :`, each as a token of its own;
  - quoted runs, verbatim;
  - bare runs.
- **`JsonObjectMapper`** has a recursive-descent parser and a serializer.
  - The parser is `toMap`, `parseObject`, `parseArray`, `parseValue` and `parseNumber`. It walks that token list with one shared cursor and builds a value tree: maps, lists, strings, booleans, `null`, and Integer or Double numbers.
  - The serializer is `toJsonString`, `mapToJsonString`, `arrayToJsonString` and `valueToJsonString`. It walks the tree back to compact text.

The modules follow the program:

- `JsonValue` (json_value.dfy) holds the value tree.
  - A `java.util.Map` is an association list of `Entry` values. `Put` replaces an existing key in place and appends a new one.
  - The exceptions are one `Error` datatype, plus `Diverges` for the loop in `parseObject` that never ends.
- `JavaText` (java_text.dfy) writes out the JDK pieces the source relies on: `Character.isWhitespace`, `String.trim`, `Integer.parseInt` and `Integer.toString`.
- `JsonTokenizer` (tokenizer.dfy) has three parts:
  - a `Tokenize` method with the source's loop, mutable buffer and quote flag;
  - the function `Tokens` that specifies it;
  - the tokenizer's invariants.
- `JsonParsing` (parser.dfy) has two parts:
  - the pure specification functions `ValueAt`, `ObjectAt`/`ObjectRest` and `ArrayAt`/`ArrayRest`. They say what each parse routine returns and where it leaves the cursor;
  - a `Parser` class whose `cursor` field is the source's `int[] index` box. Its methods `ParseValue`, `ParseObject` and `ParseArray` are the source's while loops, proved against those functions.
- `JsonSerializing` (serializer.dfy) has the `Render` function and the StringBuilder loops that are proved to produce it.
- `JsonRoundTrip` (roundtrip.dfy) proves that parsing the text of a map gives the map back.
- `JsonBehaviour` (behaviour.dfy) proves three groups of facts:
  - the parser's structural properties (trailing tokens ignored; unique keys at every depth);
  - its error paths;
  - the concrete behaviours the source's code and tests exhibit.

Double.parseDouble and Double.toString are parameters (`DoubleParser`, `DoubleShow`). Nothing in the model depends on what they compute.

Some edge cases of the code, each modelled as the code behaves:

- A token in key position that is neither `}` nor quoted makes `parseObject` loop forever; `{1:2}` is an example. The model returns `Diverges`.
- `{"a":[1` fails with an index-out-of-bounds exception from the unchecked `tokens.get` at JsonObjectMapper.java:118 (`IndexOutOfBounds`).
- The tokens ending right after a `:` give the "value missing" error at JsonObjectMapper.java:63-65 (`MissingValue`).
- `toJsonString(null)` throws a NullPointerException from `getClass()` at JsonObjectMapper.java:144 (`NullPointer`).
- A key token that is a lone `"` passes the quote test and ends in a `substring` exception (`SubstringOutOfRange`).

## Model

| member | source | states |
|---|---|---|
| JsonTokenizer.Tokenize | src/main/java/org/orlov/JsonTokenizer.java:8-49 | the character loop, with its buffer and quote flag, returns exactly `Tokens(json)`, and does so for every non-null string (on such input tokenize always returns and never throws) |
| JsonTokenizer.TokensSegmented | src/main/java/org/orlov/JsonTokenizer.java:32-46 | no token is empty; every token is a one-character structural token or a run with no structural or whitespace character outside its quotes; no two runs are adjacent; every token but the last closes its quotes |
| JsonTokenizer.TokensText | src/main/java/org/orlov/JsonTokenizer.java:13-46 | the tokens, concatenated, are exactly the input with the whitespace outside quotes removed |
| JsonTokenizer.TokensCharacterised | src/main/java/org/orlov/JsonTokenizer.java:13-46 | a token list is the tokenizer's output if and only if it is segmented and concatenates to the input minus outside-quote whitespace; the output is unique |
| JsonTokenizer.StructuralSplits | src/main/java/org/orlov/JsonTokenizer.java:25-37 | a structural character outside quotes flushes what precedes it and is a token of its own, in source order: `Tokens(a + [c] + b) == Tokens(a) + [[c]] + Tokens(b)` |
| JsonTokenizer.WhitespaceIgnored | src/main/java/org/orlov/JsonTokenizer.java:22-24 | whitespace outside quotes is dropped without flushing: the tokens of `a + [c] + b` are those of `a + b` |
| JsonTokenizer.RunQuoted | src/main/java/org/orlov/JsonTokenizer.java:19-20 | inside quotes every character other than `"`, whitespace and structural ones included, is appended to the buffer verbatim |
| JsonTokenizer.RunQuoteFlag | src/main/java/org/orlov/JsonTokenizer.java:16-18 | every `"` toggles the quote flag: after a scan of `s` the flag is its old value, flipped exactly when `s` holds an odd number of `"` |
| JsonTokenizer.QuotedToken | src/main/java/org/orlov/JsonTokenizer.java:16-20 | a quoted string with no inner `"` is one token, quotes included |
| JsonTokenizer.QuoteThenBare | src/main/java/org/orlov/JsonTokenizer.java:16-18 | a closing quote does not end the token: bare characters after it stay in the same token |
| JsonTokenizer.BareToken | src/main/java/org/orlov/JsonTokenizer.java:38-46 | a run of bare characters is one token, emitted by the final flush |
| JsonBehaviour.SpaceJoinsRun | src/main/java/org/orlov/JsonTokenizer.java:22-24 | `tr ue` tokenizes to the single token `true` |
| JsonBehaviour.ClosingQuoteKeepsRun | src/main/java/org/orlov/JsonTokenizer.java:16-18 | `"a"b` tokenizes to the single token `"a"b` |
| JsonBehaviour.BareKeyTokens | src/main/java/org/orlov/JsonTokenizer.java:25-46 | `{1:2}` tokenizes to `{`, `1`, `:`, `2`, `}` |
| JsonParsing.Parser.ParseValue | src/main/java/org/orlov/JsonObjectMapper.java:78-102 | the dispatch returns what `ValueAt` describes and leaves the cursor where it says; on NaN or Infinity the cursor has not moved |
| JsonParsing.Parser.ParseObject | src/main/java/org/orlov/JsonObjectMapper.java:43-76 | the map loop returns what `ObjectAt` describes from an empty map and leaves the cursor where it says, error outcomes included |
| JsonParsing.Parser.ParseArray | src/main/java/org/orlov/JsonObjectMapper.java:104-124 | the list loop returns what `ArrayAt` describes from an empty list and leaves the cursor where it says, error outcomes included |
| JsonParsing.ToMap | src/main/java/org/orlov/JsonObjectMapper.java:9-18 | tokenizing, the root check and parsing from cursor 1 give `ParseDocument(json)` |
| JsonParsing.ParseTokens | src/main/java/org/orlov/JsonObjectMapper.java:13-17 | a successful parse of a document is always a map |
| JsonParsing.ValueAt | src/main/java/org/orlov/JsonObjectMapper.java:78-102 | a value parsed successfully moves the cursor strictly forward and never past the end |
| JsonParsing.ObjectAt | src/main/java/org/orlov/JsonObjectMapper.java:43-76 | a map parsed successfully is a map, and the cursor ends strictly further on and within the tokens |
| JsonParsing.ArrayAt | src/main/java/org/orlov/JsonObjectMapper.java:104-124 | a list parsed successfully is a list, and the cursor ends strictly further on and within the tokens |
| JsonRoundTrip.ParseEntriesTokens | src/main/java/org/orlov/JsonObjectMapper.java:43-76 | over the tokens of entries with distinct keys, no doubles and no `"`, followed by `}`, parseObject returns the map of exactly those entries in that order, after those already read, with the cursor just past the `}` |
| JsonRoundTrip.ParseItemsTokens | src/main/java/org/orlov/JsonObjectMapper.java:104-124 | over the tokens of elements with no doubles and no `"`, followed by `]`, parseArray returns the list of exactly those elements in input order, after those already read, with the cursor just past the `]` |
| JsonParsing.QuoteTests | src/main/java/org/orlov/JsonObjectMapper.java:54 | the `startsWith`/`endsWith` quote test (`IsQuoted`) passes for every text in quotes, fails for a token that starts with anything else, and passes for a lone `"`, which `substring` then refuses |
| JsonParsing.Unquote | src/main/java/org/orlov/JsonObjectMapper.java:54-55 | stripping the first and last character succeeds exactly when the token has at least two characters, and the token is then the result in quotes |
| JsonParsing.ParseNumber | src/main/java/org/orlov/JsonObjectMapper.java:126-136 | a token with a `.` can only become a Double, and any other token only an Integer |
| JavaText.ParseInt | src/main/java/org/orlov/JsonObjectMapper.java:131 | Integer.parseInt accepts only an optional sign followed by ASCII digits |
| JavaText.ParseIntMeaning | src/main/java/org/orlov/JsonObjectMapper.java:131 | Integer.parseInt accepts a text exactly when it is an optional sign followed by at least one digit whose signed decimal value lies in the 32-bit range, and then returns that value, with no wrap-around |
| JavaText.ParseShowInt | src/main/java/org/orlov/JsonObjectMapper.java:131 | Integer.parseInt reads back every int that Integer.toString writes |
| JavaText.ShowIntDecimal | src/main/java/org/orlov/JsonObjectMapper.java:174-175 | `Integer.toString` (`ShowInt`) writes the decimal notation: the digits of n for n >= 0, a `-` and the digits of -n otherwise, with no leading zero |
| JavaText.WhitespaceClass | src/main/java/org/orlov/JsonTokenizer.java:22 | `Character.isWhitespace` (`IsWhitespace`) takes the ASCII separators and U+001C to U+001F, refuses the no-break spaces U+00A0, U+2007 and U+202F, never takes `"`, and below U+0080 takes only characters `String.trim` also removes |
| JavaText.TrimFacts | src/main/java/org/orlov/JsonObjectMapper.java:47 | String.trim returns the middle slice whose end characters lie above U+0020, and everything it cuts off is at most U+0020 |
| JsonValue.Put | src/main/java/org/orlov/JsonObjectMapper.java:67 | after `map.put(k, v)` the keys are the old keys in their old order, with k added at the end if it was new |
| JsonValue.PutLookup | src/main/java/org/orlov/JsonObjectMapper.java:67 | after `map.put(k, v)`, `get(k)` is `v` and every other key keeps its value |
| JsonValue.PutUnique | src/main/java/org/orlov/JsonObjectMapper.java:67 | a put keeps the keys unique |
| JsonValue.PutAppends | src/main/java/org/orlov/JsonObjectMapper.java:67 | putting a new key appends one entry and changes nothing else |
| JsonBehaviour.TrailingIgnored | src/main/java/org/orlov/JsonObjectMapper.java:49-51 | tokens after the root map's closing `}` never change the result |
| JsonBehaviour.DocumentWellFormed | src/main/java/org/orlov/JsonObjectMapper.java:43-124 | every map in a parsed document, at every depth, has unique keys |
| JsonBehaviour.LastWriteWins | src/main/java/org/orlov/JsonObjectMapper.java:67 | in `{"a":1,"b":2,"a":3}`, "a" keeps its first place and takes the last value 3 |
| JsonBehaviour.RootNotObject | src/main/java/org/orlov/JsonObjectMapper.java:13-15 | the empty token list, the tokens `[`, `1`, `]` and the single token `1`, none of which starts with `{`, are each rejected |
| JsonBehaviour.ColonExpected | src/main/java/org/orlov/JsonObjectMapper.java:58-60 | the tokens `{`, `"a"`, `1`, `}`, where a key is not followed by `:`, give the "':' expected" error |
| JsonBehaviour.ValueMissing | src/main/java/org/orlov/JsonObjectMapper.java:63-65 | the tokens `{`, `"a"`, `:` (the text `{"a":`) give the missing-value error |
| JsonBehaviour.ObjectUnterminated | src/main/java/org/orlov/JsonObjectMapper.java:46-75 | the tokens `{`, `"a"`, `:`, `1` (the text `{"a":1`), which end after a complete entry, give the missing-`}` error |
| JsonBehaviour.ArrayUnterminated | src/main/java/org/orlov/JsonObjectMapper.java:107-123 | the tokens `{`, `"a"`, `:`, `[` (the text `{"a":[`), which end right after `[`, give the missing-`]` error |
| JsonBehaviour.ArrayCutAfterElement | src/main/java/org/orlov/JsonObjectMapper.java:118 | `{"a":[1` reads one token past the end (an index-out-of-bounds failure) instead of reporting the missing `]` |
| JsonBehaviour.BareKeyDiverges | src/main/java/org/orlov/JsonObjectMapper.java:46-73 | in the tokens of `{1:2}` the bare token `1` in key position matches no branch, the cursor never moves, and the loop never ends |
| JsonBehaviour.BareKeyText | src/main/java/org/orlov/JsonObjectMapper.java:9-73 | `toMap("{1:2}")` never returns |
| JsonBehaviour.LoneQuoteKey | src/main/java/org/orlov/JsonObjectMapper.java:54-55 | in the tokens `{`, `"`, `:`, `1`, `}` the key token, a lone `"`, passes the quote test and then fails in `substring` |
| JsonBehaviour.NaNRefused | src/main/java/org/orlov/JsonObjectMapper.java:96-97 | the tokens of `{"a":NaN}` give the unsupported-type error |
| JsonBehaviour.InfinityRefused | src/main/java/org/orlov/JsonObjectMapper.java:96-97 | the tokens of `{"a":Infinity}` give the unsupported-type error |
| JsonBehaviour.BraceInList | src/main/java/org/orlov/JsonObjectMapper.java:98-100 | in the tokens of `{"a":[}` the `}` where a list element belongs goes to parseNumber and is an invalid number |
| JsonBehaviour.TrailingComma | src/main/java/org/orlov/JsonObjectMapper.java:69-71 | `{"a":1,}` parses to the map with the single entry a = 1 |
| JsonBehaviour.ExponentRefused | src/main/java/org/orlov/JsonObjectMapper.java:126-135 | `1e5` has no `.`, fails Integer.parseInt and is an invalid number |
| JsonBehaviour.RangeEdges | src/main/java/org/orlov/JsonObjectMapper.java:126-135 | `2147483648` is an invalid number and `-2147483648` is Integer.MIN_VALUE |
| JsonBehaviour.PlusSign | src/main/java/org/orlov/JsonObjectMapper.java:131 | `+7` is read as the Integer 7, as Integer.parseInt allows a leading `+` |
| JsonSerializing.ToJsonString | src/main/java/org/orlov/JsonObjectMapper.java:138-146 | a map or list root gives its text; a null root is a NullPointerException; any other root is the unsupported-type error |
| JsonSerializing.MapToJsonString | src/main/java/org/orlov/JsonObjectMapper.java:148-157 | the StringBuilder loop and the trailing-comma deletion give `{`, then the entries `"k": v` joined by `,`, then `}` |
| JsonSerializing.ArrayToJsonString | src/main/java/org/orlov/JsonObjectMapper.java:159-167 | the StringBuilder loop and the trailing-comma deletion give `[`, then the elements joined by `,`, then `]` |
| JsonSerializing.ValueToJsonString | src/main/java/org/orlov/JsonObjectMapper.java:169-183 | null is `null`; a string is quoted with no escaping; numbers and booleans use their toString; maps and lists recurse |
| JsonSerializing.BuiltDone | src/main/java/org/orlov/JsonObjectMapper.java:150-154 | each piece followed by `,`, with the last character deleted when more than the bracket was written, is the bracket followed by the pieces joined by `,` |
| JsonSerializing.RenderBrackets | src/main/java/org/orlov/JsonObjectMapper.java:148-167 | a map's text is in braces and a list's in brackets; an empty map or list is exactly `{}` or `[]` |
| JsonRoundTrip.RenderTokens | src/main/java/org/orlov/JsonObjectMapper.java:148-183 | the serializer's text of a value with unique keys, no doubles and no `"` in its keys or strings tokenizes to the value's own token list, with its quotes balanced |
| JsonRoundTrip.ParseValueTokens | src/main/java/org/orlov/JsonObjectMapper.java:78-124 | parseValue over the token list of such a value gives back that value, with the cursor just past those tokens |
| JsonRoundTrip.RoundTrip | src/test/java/JsonParserTest.java:113-193 | for a map with unique keys, no `"` in keys or strings and no doubles, `toMap(toJsonString(m))` is `m` |
| JsonRoundTrip.ObjectTokensParse | src/main/java/org/orlov/JsonObjectMapper.java:43-76 | parseObject, started just after the `{` of a plain map's tokens, returns that map and leaves the cursor at the end of the tokens |
| JsonRoundTrip.TruncatedRefused | src/main/java/org/orlov/JsonObjectMapper.java:43-76 | every proper prefix of a plain map's tokens, the empty one included, is refused: parseObject never returns a map without reaching the `}` |
| JsonRoundTrip.UnclosedRefused | src/test/java/JsonParserTest.java:75-85 | the text toJsonString writes for any plain map, with its closing `}` cut off, is refused by toMap |
| JsonRoundTrip.QuoteBreaksRoundTrip | src/main/java/org/orlov/JsonObjectMapper.java:172-173 | strings are written with no escaping, so for every key k with no `"` and every string value `a"b` (one `"` between a run a and a bare run b, with no `"` or `.` in either) the text ends in the token `"a"b"}`, and toMap on it fails with an invalid number; under the key a, `x"y` gives `{"a": "x"y"}` |
| JsonBehaviour.EmptyDocument | src/test/java/JsonParserTest.java:87-93 | `toMap("{}")` is the empty map |
| JsonRoundTrip.ListNotReadBack | src/main/java/org/orlov/JsonObjectMapper.java:13-15 | the text of every list, which toJsonString accepts, is rejected by toMap |

## Left out

- `toClassObject` (JsonObjectMapper.java:20-41) and `JsonParser.parseToObject` are left out. They bind map keys to class fields by reflection, which has no counterpart here.
- `JsonParser.parse` and `JsonParser.toJson` are not modelled separately. They are one-line delegations to `toMap` and `toJsonString`, which are `JsonParsing.ToMap` and `JsonSerializing.ToJsonString`.
- Double.parseDouble and Double.toString are parameters of the model, and no IEEE 754 behaviour is modelled. The round trip therefore excludes doubles.
- HashMap hashing and iteration order are not modelled. A map is kept in insertion order, and a repeated key keeps its first position. The serializer writes the entries in that order.
- `Character.isWhitespace` and `String.trim` are written out over Dafny characters following the JDK's definitions for the Basic Multilingual Plane. Supplementary characters, which Java sees as surrogate pairs, are not modelled.
- `JavaText.ParseInt`: Integer.parseInt is restricted to the ASCII digits `0`-`9`. The JDK also accepts other Unicode decimal digits.
- The exception messages are replaced by the constructors of the `Error` datatype.
- The loop in `parseObject` that never ends is modelled as the outcome `Err(Diverges)`, returned at the point where the Java loop would repeat with unchanged state. The model does not run forever.
- Stack overflow on deeply nested input is not modelled.
- `JsonSerializing.ValueToJsonString`: the exception for a value of any other Java class (JsonObjectMapper.java:180-181) cannot arise, because `Value` has no other kinds.
- `JsonRoundTrip.RoundTrip` is stated for maps whose keys and strings contain no `"`, that hold no doubles, and whose keys are unique at every depth. These limits are sufficient, not necessary. A string with a balanced pair of `"` can still read back. A string of the form `a"b` with one `"` does not: `JsonRoundTrip.QuoteBreaksRoundTrip` shows it failing, `x"y` among them. Every Java map has unique keys, so that limit only rules out association lists that no map produces. Doubles are excluded because Double.toString and Double.parseDouble are parameters here, so whether a double reads back is outside the model.
- The JUnit harness is not modelled.
  - testEmptyJson (`{}`) is covered by `JsonBehaviour.EmptyDocument`.
  - testInvalidJson parses a map whose closing `}` is missing. `JsonRoundTrip.UnclosedRefused` covers that shape for toJsonString's own text. `JsonRoundTrip.TruncatedRefused` covers it at the token level, for every proper prefix of a plain map's tokens. Neither lemma states which error message toMap raises. The test's literal puts a space after each `,`, which toJsonString does not write. The tokenizer drops those spaces, so the literal's tokens are such a prefix, but the model does not prove this for the literal itself.
  - The round-trip tests are covered by `JsonRoundTrip.RoundTrip`.
  - testParseSimpleObject, testParseNestedObject, testParseArrayOfPrimitives, testParseArrayOfObjects, testParseWithNullValues and testComplexJson have no lemma about their exact texts. Each literal differs from toJsonString's text for its map only by the spaces after its commas, so `JsonRoundTrip.RoundTrip` reaches them only through their tokens. The model does not prove that step for the literals.
- A null string given to `tokenize` or `toMap` throws a NullPointerException at `json.length()` (JsonTokenizer.java:13). The model's strings are never null, so this case is not modelled.
- `valueToJsonString` writes any `Number` with its `toString` (JsonObjectMapper.java:174-175), Long, Float and BigDecimal included. The model's values hold only Integer and Double numbers, which are the only kinds the parser produces.

/** The value tree that the mapper builds from JSON text and walks back to text:
    java.util.Map becomes an association list of entries, java.util.List a
    sequence, and the boxed scalars (String, Boolean, Integer, Double, null)
    become constructors of one datatype. */
module JsonValue {

  datatype Option<T> = None | Some(value: T)

  /** Every way in which a call into the mapper can end other than by
      returning a value: the exceptions the source throws, and Diverges for
      the loop in parseObject that never ends. */
  datatype Error =
    | MalformedDocument     // toMap: the token list is empty or does not start with '{'
    | ExpectedColon         // parseObject: a key is not followed by ':'
    | MissingValue          // parseObject: the tokens end right after ':'
    | UnterminatedObject    // parseObject: the tokens end before '}'
    | UnterminatedArray     // parseArray: the tokens end before ']'
    | UnsupportedLiteral    // parseValue: NaN or Infinity
    | InvalidNumber         // parseNumber: the NumberFormatException it converts
    | SubstringOutOfRange   // substring(1, 0) on a token that is one lone '"'
    | IndexOutOfBounds      // parseArray: tokens.get(index) one past the last token
    | Diverges              // parseObject: a token that is neither '}' nor quoted, forever
    | UnsupportedRootType   // toJsonString: the root is neither a Map nor a List
    | NullPointer           // toJsonString(null): getClass() on the null root

  datatype Result<T> = Ok(value: T) | Err(error: Error)

  /** Java's int. */
  newtype int32 = x: int | -0x8000_0000 <= x < 0x8000_0000

  datatype Value =
    | Null
    | Bool(b: bool)
    | Int(n: int32)
    | Dbl(bits: bv64)       // a java.lang.Double, identified by its IEEE 754 bit pattern
    | Str(s: string)
    | Arr(items: seq<Value>)
    | Obj(entries: seq<Entry>)

  /** One key/value pair of a map. */
  datatype Entry = Entry(key: string, value: Value)

  /** The keys of a map, in entry order. */
  function Keys(es: seq<Entry>): (ks: seq<string>)
    ensures |ks| == |es|
  {
    if |es| == 0 then [] else [es[0].key] + Keys(es[1..])
  }

  /** The k-th key is the key of the k-th entry. */
  lemma {:induction false} KeysAt(es: seq<Entry>)
    ensures forall m :: 0 <= m < |es| ==> Keys(es)[m] == es[m].key
  {
    if |es| > 0 {
      KeysAt(es[1..]);
      assert Keys(es) == [es[0].key] + Keys(es[1..]);
    }
  }

  lemma {:induction false} KeysConcat(a: seq<Entry>, b: seq<Entry>)
    ensures Keys(a + b) == Keys(a) + Keys(b)
    decreases |a|
  {
    if |a| > 0 {
      assert (a + b)[1..] == a[1..] + b;
      KeysConcat(a[1..], b);
    } else {
      assert a + b == b;
    }
  }

  /** A map never holds two entries with the same key. */
  predicate UniqueKeys(es: seq<Entry>) {
    |es| == 0 || (es[0].key !in Keys(es[1..]) && UniqueKeys(es[1..]))
  }

  /** Map.get, with None for an absent key and Some(Null) for a key bound to null. */
  function Lookup(es: seq<Entry>, k: string): (r: Option<Value>)
    ensures r.Some? <==> k in Keys(es)
    ensures r.Some? ==> Entry(k, r.value) in es
  {
    if |es| == 0 then None
    else if es[0].key == k then Some(es[0].value)
    else Lookup(es[1..], k)
  }

  /** Map.put: an existing key keeps its place and gets the new value;
      a new key is appended. */
  function Put(es: seq<Entry>, k: string, v: Value): (r: seq<Entry>)
    ensures Keys(r) == if k in Keys(es) then Keys(es) else Keys(es) + [k]
  {
    if |es| == 0 then [Entry(k, v)]
    else if es[0].key == k then [Entry(k, v)] + es[1..]
    else [es[0]] + Put(es[1..], k, v)
  }

  /** After a put, k is bound to v and every other key to what it was bound to. */
  lemma {:induction false} PutLookup(es: seq<Entry>, k: string, v: Value, k': string)
    ensures Lookup(Put(es, k, v), k') == if k' == k then Some(v) else Lookup(es, k')
  {
    if |es| > 0 && es[0].key != k {
      PutLookup(es[1..], k, v, k');
      assert Put(es, k, v)[1..] == Put(es[1..], k, v);
    }
  }

  /** A put of a new key appends one entry. */
  lemma {:induction false} PutAppends(es: seq<Entry>, k: string, v: Value)
    requires k !in Keys(es)
    ensures Put(es, k, v) == es + [Entry(k, v)]
  {
    if |es| > 0 {
      assert Keys(es) == [es[0].key] + Keys(es[1..]);
      PutAppends(es[1..], k, v);
      assert es == [es[0]] + es[1..];
    }
  }

  /** A put never makes a key occur twice. */
  lemma {:induction false} PutUnique(es: seq<Entry>, k: string, v: Value)
    requires UniqueKeys(es)
    ensures UniqueKeys(Put(es, k, v))
  {
    if |es| > 0 {
      var r := Put(es, k, v);
      if es[0].key == k {
        assert r[1..] == es[1..];
      } else {
        PutUnique(es[1..], k, v);
        assert r[1..] == Put(es[1..], k, v);
        assert Keys(r[1..]) == Keys(es[1..]) || Keys(r[1..]) == Keys(es[1..]) + [k];
      }
    }
  }

  /** Every map anywhere inside v has unique keys. */
  predicate WellFormed(v: Value) {
    match v
    case Arr(items) => forall k :: 0 <= k < |items| ==> WellFormed(items[k])
    case Obj(es) => UniqueKeys(es) && forall k :: 0 <= k < |es| ==> WellFormed(es[k].value)
    case _ => true
  }

  /** Every entry after a put is an old entry or the new one. */
  lemma {:induction false} PutEntries(es: seq<Entry>, k: string, v: Value)
    ensures forall e :: e in Put(es, k, v) ==> e in es || e == Entry(k, v)
  {
    if |es| > 0 && es[0].key != k {
      PutEntries(es[1..], k, v);
      assert Put(es, k, v)[1..] == Put(es[1..], k, v);
    }
  }
}

/** The serializing half of JsonObjectMapper: toJsonString,
    mapToJsonString, arrayToJsonString and valueToJsonString, walking the
    value tree back to compact text. */
module JsonSerializing {
  import opened JsonValue
  import opened JavaText

  /** Double.toString, left open. */
  type DoubleShow = bv64 -> string

  /** The pieces with a ',' between each two of them. */
  function Join(pieces: seq<string>): string {
    if |pieces| == 0 then ""
    else if |pieces| == 1 then pieces[0]
    else pieces[0] + "," + Join(pieces[1..])
  }

  /** valueToJsonString: the text of one value. Strings are quoted with no
      escaping, numbers and booleans use their toString, maps and lists
      recurse. */
  function Render(v: Value, show: DoubleShow): string
    decreases v, 1
  {
    match v
    case Null => "null"
    case Bool(b) => if b then "true" else "false"
    case Int(n) => ShowInt(n)
    case Dbl(bits) => show(bits)
    case Str(s) => "\"" + s + "\""
    case Obj(es) => "{" + Join(EntryTexts(es, show)) + "}"
    case Arr(items) => "[" + Join(ItemTexts(items, show)) + "]"
  }

  /** A map is written in braces and a list in brackets; an empty one is
      exactly "{}" or "[]". */
  lemma RenderBrackets(v: Value, show: DoubleShow)
    ensures v.Obj? ==> |Render(v, show)| >= 2 && Render(v, show)[0] == '{' && Render(v, show)[|Render(v, show)| - 1] == '}'
    ensures v.Arr? ==> |Render(v, show)| >= 2 && Render(v, show)[0] == '[' && Render(v, show)[|Render(v, show)| - 1] == ']'
    ensures v == Obj([]) ==> Render(v, show) == "{}"
    ensures v == Arr([]) ==> Render(v, show) == "[]"
  {
  }

  /** The text mapToJsonString writes for each entry: the quoted key, ": ",
      and the value. */
  function EntryTexts(es: seq<Entry>, show: DoubleShow): (r: seq<string>)
    decreases es, 0
  {
    seq(|es|, k requires 0 <= k < |es| => "\"" + es[k].key + "\": " + Render(es[k].value, show))
  }

  /** The text arrayToJsonString writes for each element. */
  function ItemTexts(items: seq<Value>, show: DoubleShow): (r: seq<string>)
    decreases items, 0
  {
    seq(|items|, k requires 0 <= k < |items| => Render(items[k], show))
  }

  /** Joining one more piece onto a nonempty list adds a ',' and the piece. */
  lemma {:induction false} JoinSnoc(pieces: seq<string>, p: string)
    requires |pieces| > 0
    ensures Join(pieces + [p]) == Join(pieces) + "," + p
    decreases |pieces|
  {
    if |pieces| > 1 {
      JoinSnoc(pieces[1..], p);
      assert (pieces + [p])[1..] == pieces[1..] + [p];
    }
  }

  /** What the StringBuilder of a map or list loop holds after the first k
      pieces: the opening bracket, then each piece followed by ','. */
  function Built(open: char, pieces: seq<string>, k: nat): string
    requires k <= |pieces|
    decreases k
  {
    if k == 0 then [open] else Built(open, pieces, k - 1) + pieces[k - 1] + ","
  }

  /** Once a piece is written, the builder holds the bracket, the pieces so
      far joined by ',', and one more ','. */
  lemma {:induction false} BuiltJoin(open: char, pieces: seq<string>, k: nat)
    requires 0 < k <= |pieces|
    ensures Built(open, pieces, k) == [open] + Join(pieces[..k]) + ","
    decreases k
  {
    if k > 1 {
      BuiltJoin(open, pieces, k - 1);
      JoinSnoc(pieces[..k - 1], pieces[k - 1]);
      assert pieces[..k - 1] + [pieces[k - 1]] == pieces[..k];
    }
  }

  /** After the loop, deleting the last character when more than the
      bracket was written leaves the bracket and the joined pieces. */
  lemma BuiltDone(open: char, pieces: seq<string>)
    ensures var b := Built(open, pieces, |pieces|);
      (if |b| > 1 then b[..|b| - 1] else b) == [open] + Join(pieces)
  {
    if |pieces| > 0 {
      BuiltJoin(open, pieces, |pieces|);
      assert pieces[..|pieces|] == pieces;
      var b := Built(open, pieces, |pieces|);
      assert b[..|b| - 1] == [open] + Join(pieces);
    }
  }

  // A string identity that exists only to steer the solver in the loop
  // of mapToJsonString below.

  /** Appending the parts of an entry one by one appends the entry. */
  lemma Regroup(a: string, b: string, c: string, d: string, e: string, f: string)
    ensures a + b + c + d + e + f == a + (b + c + d + e) + f
  {
  }

  /** valueToJsonString: dispatch on the kind of value. */
  method ValueToJsonString(v: Value, show: DoubleShow) returns (json: string)
    ensures json == Render(v, show)
    decreases v, 1
  {
    match v
    case Null => json := "null";
    case Str(s) => json := "\"" + s + "\"";
    case Int(n) => json := ShowInt(n);
    case Dbl(bits) => json := show(bits);
    case Bool(b) => json := if b then "true" else "false";
    case Obj(es) => json := MapToJsonString(es, show);
    case Arr(items) => json := ArrayToJsonString(items, show);
  }

  /** mapToJsonString: '{', each entry followed by ',', the last ','
      deleted again if anything was written, and '}'. */
  method MapToJsonString(es: seq<Entry>, show: DoubleShow) returns (json: string)
    ensures json == Render(Obj(es), show)
    decreases es, 0
  {
    ghost var texts := EntryTexts(es, show);
    json := "{";
    for k := 0 to |es|
      invariant json == Built('{', texts, k)
    {
      var text := ValueToJsonString(es[k].value, show);
      ghost var before := json;
      json := json + "\"" + es[k].key + "\": " + text + ",";
      Regroup(before, "\"", es[k].key, "\": ", text, ",");
    }
    BuiltDone('{', texts);
    if |json| > 1 {
      json := json[..|json| - 1];
    }
    json := json + "}";
  }

  /** arrayToJsonString: the same loop over the elements, in '[' and ']'. */
  method ArrayToJsonString(items: seq<Value>, show: DoubleShow) returns (json: string)
    ensures json == Render(Arr(items), show)
    decreases items, 0
  {
    ghost var texts := ItemTexts(items, show);
    json := "[";
    for k := 0 to |items|
      invariant json == Built('[', texts, k)
    {
      var text := ValueToJsonString(items[k], show);
      ghost var before := json;
      json := json + text + ",";
      assert json == before + texts[k] + ",";
    }
    BuiltDone('[', texts);
    if |json| > 1 {
      json := json[..|json| - 1];
    }
    json := json + "]";
  }

  /** toJsonString: only a map or a list may be the root. */
  method ToJsonString(v: Value, show: DoubleShow) returns (r: Result<string>)
    ensures v.Obj? || v.Arr? ==> r == Ok(Render(v, show))
    ensures v.Null? ==> r == Err(NullPointer)
    ensures !v.Obj? && !v.Arr? && !v.Null? ==> r == Err(UnsupportedRootType)
  {
    match v
    case Obj(es) =>
      var json := MapToJsonString(es, show);
      r := Ok(json);
    case Arr(items) =>
      var json := ArrayToJsonString(items, show);
      r := Ok(json);
    case Null => r := Err(NullPointer);
    case _ => r := Err(UnsupportedRootType);
  }
}

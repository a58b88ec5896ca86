/** Value types and text functions shared by the models: optional values, results, the JSON values a
    settings file or a catalog row carries, and the comma separated lists that travel through SQL. */
module Prelude {

  datatype Option<+T> = None | Some(value: T)

  datatype Result<+T> = Ok(value: T) | Err(field: string)

  /** What a Python program reads from JSON. */
  datatype Json =
    | Null
    | Bool(b: bool)
    | Number(n: int)
    | Fraction(r: real)
    | Text(s: string)
    | Items(items: seq<Json>)
    | Object(fields: map<string, Json>)

  /** `value[key]` of a dictionary, or `otherwise` when it has no such key. */
  function Get(fields: map<string, Json>, key: string, otherwise: Json): Json {
    if key in fields then fields[key] else otherwise
  }

  predicate NoDuplicates<T(==)>(xs: seq<T>) {
    forall i, j :: 0 <= i < j < |xs| ==> xs[i] != xs[j]
  }

  /** `xs` appears in `ys` in the same order, possibly with gaps. */
  predicate IsSubsequence<T(==)>(xs: seq<T>, ys: seq<T>) {
    if xs == [] then true
    else if ys == [] then false
    else if xs[0] == ys[0] then IsSubsequence(xs[1..], ys[1..])
    else IsSubsequence(xs, ys[1..])
  }

  /** The pieces one after another. */
  function Concat<T>(pieces: seq<seq<T>>): seq<T> {
    if pieces == [] then [] else pieces[0] + Concat(pieces[1..])
  }

  lemma {:induction false} ConcatMore<T>(a: seq<seq<T>>, b: seq<T>)
    ensures Concat(a + [b]) == Concat(a) + b
    decreases |a|
  {
    if a == [] {
      assert [] + [b] == [b] && [b][1..] == [];
    } else {
      ConcatMore(a[1..], b);
      assert (a + [b])[1..] == a[1..] + [b];
    }
  }

  /** `",".join(items)`. */
  function Join(items: seq<string>): string {
    if items == [] then ""
    else if |items| == 1 then items[0]
    else items[0] + "," + Join(items[1..])
  }

  /** `text.split(",")`: never empty, and an empty text is one empty item. */
  function Split(text: string): (items: seq<string>)
    ensures |items| > 0
  {
    if text == "" then [""]
    else
      var rest := Split(text[1..]);
      if text[0] == ',' then [""] + rest
      else [[text[0]] + rest[0]] + rest[1..]
  }

  function NonEmpty(items: seq<string>): seq<string> {
    if items == [] then []
    else if items[0] == "" then NonEmpty(items[1..])
    else [items[0]] + NonEmpty(items[1..])
  }

  /** `[item for item in text.split(",") if item]`. */
  function Listed(text: string): seq<string> {
    NonEmpty(Split(text))
  }

  /** A name that survives a comma separated list. */
  predicate Separable(item: string) {
    item != "" && ',' !in item
  }

  lemma {:induction false} SplitPrefix(item: string, text: string)
    requires ',' !in item
    ensures Split(item + text) == [item + Split(text)[0]] + Split(text)[1..]
  {
    if item == "" {
      assert item + text == text;
      assert "" + Split(text)[0] == Split(text)[0];
    } else {
      assert item[0] in item && forall c :: c in item[1..] ==> c in item;
      SplitPrefix(item[1..], text);
      assert (item + text)[0] == item[0] && (item + text)[1..] == item[1..] + text;
      var rest := Split(item[1..] + text);
      assert [item[0]] + rest[0] == item + Split(text)[0];
    }
  }

  /** Joining names and splitting the text again gives the names back. */
  lemma {:induction false} JoinThenListed(items: seq<string>)
    requires forall item <- items :: Separable(item)
    ensures Listed(Join(items)) == items
  {
    if |items| == 1 {
      assert Separable(items[0]);
      assert items[0] + "" == items[0];
      SplitPrefix(items[0], "");
      assert Split(items[0]) == items;
      assert NonEmpty(items) == [items[0]] + NonEmpty(items[1..]) == items;
    } else if |items| > 1 {
      assert Separable(items[0]);
      JoinThenListed(items[1..]);
      var tail := "," + Join(items[1..]);
      assert tail[1..] == Join(items[1..]);
      SplitPrefix(items[0], tail);
      assert items[0] + tail == Join(items);
      assert Split(tail) == [""] + Split(Join(items[1..]));
      assert items[0] + "" == items[0];
      assert Split(Join(items)) == [items[0]] + Split(Join(items[1..]));
    }
  }

  /** Splitting and joining again gives the text back, empty items included. */
  lemma {:induction false} SplitThenJoin(text: string)
    ensures Join(Split(text)) == text
  {
    if text != "" {
      SplitThenJoin(text[1..]);
      var rest := Split(text[1..]);
      if text[0] == ',' {
        assert Join([""] + rest) == "" + "," + Join(rest) by { assert ([""] + rest)[1..] == rest; }
      } else if |rest| == 1 {
        assert Split(text) == [[text[0]] + rest[0]];
      } else {
        var whole := [[text[0]] + rest[0]] + rest[1..];
        assert whole[1..] == rest[1..];
        assert Join(whole) == [text[0]] + rest[0] + "," + Join(rest[1..]);
      }
    }
  }

  /** The decimal text of a number, as `str` writes it. */
  function Decimal(n: nat): (text: string)
    ensures AllDigits(text)
  {
    if n < 10 then [('0' as int + n) as char]
    else Decimal(n / 10) + [('0' as int + n % 10) as char]
  }

  predicate AllDigits(text: string) {
    text != "" && forall i :: 0 <= i < |text| ==> '0' <= text[i] <= '9'
  }

  /** `int(text)` of a text of digits. */
  function Value(text: string): nat
    requires text == "" || AllDigits(text)
  {
    if text == "" then 0
    else Value(text[..|text| - 1]) * 10 + (text[|text| - 1] as int - '0' as int)
  }

  lemma {:induction false} DecimalThenValue(n: nat)
    ensures Value(Decimal(n)) == n
  {
    if n >= 10 {
      DecimalThenValue(n / 10);
      assert Decimal(n)[..|Decimal(n)| - 1] == Decimal(n / 10);
    }
  }
}

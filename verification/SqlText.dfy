/** lab/cluster_rebuild.py and lab/durable_runtime.py: how names, literals and list settings are written as SQL,
    and how PostgreSQL reads and stores them. */
module SqlText {
  import opened Prelude

  // ------------------------------------------------------------ quoting

  /** `text.replace(q, q + q)`. */
  function Doubled(text: string, q: char): string {
    if text == "" then ""
    else (if text[0] == q then [q, q] else [text[0]]) + Doubled(text[1..], q)
  }

  function Identifier(name: string): string {
    "\"" + Doubled(name, '"') + "\""
  }

  function Literal(text: string): string {
    "'" + Doubled(text, '\'') + "'"
  }

  /** What PostgreSQL's scanner reads after an opening quote: the content, and what follows the closing one. */
  function ScanQuoted(text: string, q: char): Option<(string, string)> {
    if text == "" then None
    else if text[0] != q then
      var more := ScanQuoted(text[1..], q);
      if more.None? then None else Some(([text[0]] + more.value.0, more.value.1))
    else if |text| > 1 && text[1] == q then
      var more := ScanQuoted(text[2..], q);
      if more.None? then None else Some(([q] + more.value.0, more.value.1))
    else Some(("", text[1..]))
  }

  /** Whatever the text holds, quoting keeps it in one piece: it is read back whole, and what follows is not touched. */
  lemma {:induction false} QuotedReadsBack(text: string, q: char, rest: string)
    requires rest == "" || rest[0] != q
    ensures ScanQuoted(Doubled(text, q) + [q] + rest, q) == Some((text, rest))
    decreases |text|
  {
    var all := Doubled(text, q) + [q] + rest;
    if text == "" {
      assert all == [q] + rest;
      assert all[1..] == rest;
    } else {
      QuotedReadsBack(text[1..], q, rest);
      var tail := Doubled(text[1..], q) + [q] + rest;
      if text[0] == q {
        assert all == [q, q] + tail && all[2..] == tail;
      } else {
        assert all == [text[0]] + tail && all[1..] == tail;
      }
      assert text == [text[0]] + text[1..];
    }
  }

  /** A name or a literal written by the compiler is one token: PostgreSQL reads the name or text that went in. */
  lemma WrittenNamesReadBack(text: string, rest: string)
    ensures (rest == "" || rest[0] != '"') ==> ScanQuoted((Identifier(text) + rest)[1..], '"') == Some((text, rest))
    ensures (rest == "" || rest[0] != '\'') ==> ScanQuoted((Literal(text) + rest)[1..], '\'') == Some((text, rest))
  {
    if rest == "" || rest[0] != '"' {
      QuotedReadsBack(text, '"', rest);
      assert (Identifier(text) + rest)[1..] == Doubled(text, '"') + ['"'] + rest;
    }
    if rest == "" || rest[0] != '\'' {
      QuotedReadsBack(text, '\'', rest);
      assert (Literal(text) + rest)[1..] == Doubled(text, '\'') + ['\''] + rest;
    }
  }

  // ------------------------------------------------------------ lists of names

  datatype Element = Quoted(body: string) | Bare(word: string)

  predicate BareStart(c: char) {
    'a' <= c <= 'z' || 'A' <= c <= 'Z' || c == '_' || c == '$'
  }

  predicate BareChar(c: char) {
    BareStart(c) || '0' <= c <= '9'
  }

  predicate WellFormed(e: Element) {
    match e
    case Quoted(body) => forall i :: 0 <= i < |body| ==> body[i] != '"'
    case Bare(word) => word != "" && BareStart(word[0]) && forall i :: 0 <= i < |word| ==> BareChar(word[i])
  }

  function Written(e: Element): string {
    match e
    case Quoted(body) => "\"" + body + "\""
    case Bare(word) => word
  }

  function WrittenList(es: seq<Element>): string {
    if es == [] then ""
    else if |es| == 1 then Written(es[0])
    else Written(es[0]) + ", " + WrittenList(es[1..])
  }

  /** The characters before the first `"`, and what follows it. */
  function Body(text: string): (r: Option<(string, string)>)
    ensures r.Some? ==> |r.value.1| < |text|
  {
    if text == "" then None
    else if text[0] == '"' then Some(("", text[1..]))
    else
      var more := Body(text[1..]);
      if more.None? then None else Some(([text[0]] + more.value.0, more.value.1))
  }

  function Word(text: string): (r: (string, string))
    ensures r.0 + r.1 == text
  {
    if text == "" || !BareChar(text[0]) then ("", text)
    else
      var more := Word(text[1..]);
      ([text[0]] + more.0, more.1)
  }

  function OneElement(text: string): (r: Option<(Element, string)>)
    ensures r.Some? ==> |r.value.1| < |text|
  {
    if text == "" then None
    else if text[0] == '"' then
      var body := Body(text[1..]);
      if body.None? then None else Some((Quoted(body.value.0), body.value.1))
    else if BareStart(text[0]) then
      assert Word(text).0 != "";
      Some((Bare(Word(text).0), Word(text).1))
    else None
  }

  /** `LIST_VALUE.fullmatch`, with the elements it found. */
  function Elements(text: string): Option<seq<Element>>
    decreases |text|
  {
    var one := OneElement(text);
    if one.None? then None
    else if one.value.1 == "" then Some([one.value.0])
    else if |one.value.1| < 2 || one.value.1[..2] != ", " then None
    else
      var more := Elements(one.value.1[2..]);
      if more.None? then None else Some([one.value.0] + more.value)
  }

  lemma {:induction false} BodyIsPrefix(text: string)
    requires Body(text).Some?
    ensures var b := Body(text).value; text == b.0 + "\"" + b.1 && WellFormed(Quoted(b.0))
    decreases |text|
  {
    if text[0] != '"' { BodyIsPrefix(text[1..]); }
  }

  lemma {:induction false} BodyOfWritten(body: string, rest: string)
    requires WellFormed(Quoted(body))
    ensures Body(body + "\"" + rest) == Some((body, rest))
    decreases |body|
  {
    var all := body + "\"" + rest;
    if body == "" {
      assert all == "\"" + rest && all[1..] == rest;
    } else {
      assert WellFormed(Quoted(body[1..]));
      BodyOfWritten(body[1..], rest);
      assert all[1..] == body[1..] + "\"" + rest;
      assert [body[0]] + body[1..] == body;
    }
  }

  lemma {:induction false} WordIsBare(text: string)
    ensures forall i :: 0 <= i < |Word(text).0| ==> BareChar(Word(text).0[i])
    decreases |text|
  {
    if text != "" && BareChar(text[0]) { WordIsBare(text[1..]); }
  }

  predicate AllBare(word: string) {
    word == "" || (BareChar(word[0]) && AllBare(word[1..]))
  }

  lemma {:induction false} BareThroughout(word: string)
    requires forall i :: 0 <= i < |word| ==> BareChar(word[i])
    ensures AllBare(word)
    decreases |word|
  {
    if word != "" {
      forall i | 0 <= i < |word[1..]| ensures BareChar(word[1..][i]) { assert word[1..][i] == word[i + 1]; }
      BareThroughout(word[1..]);
    }
  }

  lemma {:induction false} WordOfWritten(word: string, rest: string)
    requires AllBare(word) && (rest == "" || !BareChar(rest[0]))
    ensures Word(word + rest) == (word, rest)
    decreases |word|
  {
    if word == "" {
      assert word + rest == rest;
    } else {
      WordOfWritten(word[1..], rest);
      assert (word + rest)[1..] == word[1..] + rest;
      assert [word[0]] + word[1..] == word;
    }
  }

  lemma OneIsWritten(text: string)
    requires OneElement(text).Some?
    ensures var e := OneElement(text).value; WellFormed(e.0) && text == Written(e.0) + e.1
  {
    if text[0] == '"' {
      BodyIsPrefix(text[1..]);
      assert text == "\"" + text[1..];
    } else {
      WordIsBare(text);
    }
  }

  lemma QuotedOfWritten(body: string, rest: string)
    requires WellFormed(Quoted(body))
    ensures OneElement(Written(Quoted(body)) + rest) == Some((Quoted(body), rest))
  {
    var all := Written(Quoted(body)) + rest;
    BodyOfWritten(body, rest);
    assert all[0] == '"' && all[1..] == body + "\"" + rest;
  }

  lemma BareOfWritten(word: string, rest: string)
    requires WellFormed(Bare(word)) && (rest == "" || rest[0] == ',')
    ensures OneElement(Written(Bare(word)) + rest) == Some((Bare(word), rest))
  {
    BareThroughout(word);
    WordOfWritten(word, rest);
    assert (word + rest)[0] == word[0];
  }

  lemma OneOfWritten(e: Element, rest: string)
    requires WellFormed(e) && (rest == "" || rest[0] == ',')
    ensures OneElement(Written(e) + rest) == Some((e, rest))
  {
    match e {
      case Quoted(body) => QuotedOfWritten(body, rest);
      case Bare(word) => BareOfWritten(word, rest);
    }
  }

  predicate AllWellFormed(es: seq<Element>) {
    es == [] || (WellFormed(es[0]) && AllWellFormed(es[1..]))
  }

  lemma ListOfMore(e: Element, es: seq<Element>, text: string)
    requires es != [] && WrittenList(es) == text
    ensures WrittenList([e] + es) == Written(e) + (", " + text)
  {
    assert ([e] + es)[1..] == es;
  }

  /** What matches is the list of its elements, written one after another. */
  lemma {:induction false} ElementsAreTheText(text: string)
    requires Elements(text).Some?
    ensures var es := Elements(text).value; es != [] && WrittenList(es) == text && AllWellFormed(es)
    decreases |text|
  {
    OneIsWritten(text);
    var one := OneElement(text).value;
    if one.1 == "" {
      assert Written(one.0) + "" == Written(one.0);
    } else {
      var rest := one.1[2..];
      ElementsAreTheText(rest);
      var more := Elements(rest).value;
      assert one.1 == ", " + rest;
      ListOfMore(one.0, more, rest);
      assert ([one.0] + more)[1..] == more;
    }
  }

  lemma ElementsOfMore(text: string, e: Element, rest: string)
    requires OneElement(text) == Some((e, ", " + rest)) && Elements(rest).Some?
    ensures Elements(text) == Some([e] + Elements(rest).value)
  {
    assert (", " + rest)[..2] == ", " && (", " + rest)[2..] == rest;
  }

  lemma {:induction false} WrittenElementsReadBack(es: seq<Element>)
    requires es != [] && AllWellFormed(es)
    ensures Elements(WrittenList(es)) == Some(es)
    decreases |es|
  {
    if |es| == 1 {
      OneOfWritten(es[0], "");
      assert Written(es[0]) + "" == Written(es[0]);
      assert es == [es[0]];
    } else {
      var rest := WrittenList(es[1..]);
      WrittenElementsReadBack(es[1..]);
      OneOfWritten(es[0], ", " + rest);
      ListOfMore(es[0], es[1..], rest);
      assert [es[0]] + es[1..] == es;
      ElementsOfMore(WrittenList(es), es[0], rest);
    }
  }

  // ------------------------------------------------------------ what PostgreSQL makes of a list

  /** The words PostgreSQL writes quoted, and those of them it does not take bare in SET. */
  datatype Words = Words(quoted: set<string>, refused: set<string>)

  function Lower(text: string): (r: string)
    ensures |r| == |text|
  {
    if text == "" then "" else [if 'A' <= text[0] <= 'Z' then text[0] - 'A' + 'a' else text[0]] + Lower(text[1..])
  }

  /** The name a token stands for, unless it is a syntax error: an empty quoted name, a bare name that begins with
      a dollar sign, or a bare reserved word. */
  function Name(e: Element, words: Words): Option<string> {
    match e
    case Quoted(body) => if body == "" then None else Some(body)
    case Bare(word) => if word == "" || word[0] == '$' || Lower(word) in words.refused then None else Some(Lower(word))
  }

  predicate Safe(name: string) {
    && name != "" && ('a' <= name[0] <= 'z' || name[0] == '_')
    && forall i :: 0 <= i < |name| ==> 'a' <= name[i] <= 'z' || '0' <= name[i] <= '9' || name[i] == '_'
  }

  /** How PostgreSQL writes a name of a list it stores. */
  function Kept(name: string, words: Words): Element {
    if Safe(name) && name !in words.quoted then Bare(name) else Quoted(name)
  }

  /** The elements a list is stored as. */
  function StoredElements(es: seq<Element>, words: Words): Option<seq<Element>> {
    if es == [] then Some([])
    else if Name(es[0], words).None? || StoredElements(es[1..], words).None? then None
    else Some([Kept(Name(es[0], words).value, words)] + StoredElements(es[1..], words).value)
  }

  /** Written the way PostgreSQL writes it. */
  predicate Canonical(e: Element, words: Words) {
    match e
    case Quoted(body) => body != "" && (!Safe(body) || body in words.quoted)
    case Bare(word) => Safe(word) && word !in words.quoted
  }

  lemma {:induction false} LowerOfSafe(word: string)
    requires forall i :: 0 <= i < |word| ==> 'a' <= word[i] <= 'z' || '0' <= word[i] <= '9' || word[i] == '_'
    ensures Lower(word) == word
    decreases |word|
  {
    if word != "" {
      LowerOfSafe(word[1..]);
      assert word == [word[0]] + word[1..];
    }
  }

  lemma OneKept(e: Element, words: Words)
    requires words.refused <= words.quoted
    ensures Name(e, words).Some? && Kept(Name(e, words).value, words) == e <==> Canonical(e, words)
  {
    if e.Bare? && Safe(e.word) { LowerOfSafe(e.word); }
  }

  lemma {:induction false} StoredAsWritten(es: seq<Element>, words: Words)
    requires words.refused <= words.quoted
    ensures StoredElements(es, words) == Some(es) <==> forall i :: 0 <= i < |es| ==> Canonical(es[i], words)
    decreases |es|
  {
    if es != [] {
      OneKept(es[0], words);
      StoredAsWritten(es[1..], words);
      assert es == [es[0]] + es[1..];
      if forall i :: 0 <= i < |es| ==> Canonical(es[i], words) {
        assert forall i :: 0 <= i < |es[1..]| ==> es[1..][i] == es[i + 1];
      }
      if forall i :: 0 <= i < |es[1..]| ==> Canonical(es[1..][i], words) {
        assert forall i :: 1 <= i < |es| ==> es[i] == es[1..][i - 1];
      }
    }
  }

  lemma {:induction false} LowerKeepsQuotes(word: string, i: nat)
    requires i < |word|
    ensures (Lower(word)[i] == '"') == (word[i] == '"')
    decreases |word|
  {
    if i > 0 { LowerKeepsQuotes(word[1..], i - 1); }
  }

  lemma {:induction false} StoredIsWellFormed(es: seq<Element>, words: Words)
    requires StoredElements(es, words).Some? && AllWellFormed(es)
    ensures var kept := StoredElements(es, words).value; |kept| == |es| && AllWellFormed(kept)
    decreases |es|
  {
    if es != [] {
      StoredIsWellFormed(es[1..], words);
      var name := Name(es[0], words).value;
      forall i | 0 <= i < |name| ensures name[i] != '"' {
        if es[0].Bare? { LowerKeepsQuotes(es[0].word, i); }
      }
      assert WellFormed(Kept(name, words));
    }
  }

  /** What PostgreSQL stores of a list setting that is set to `text`. */
  function StoredList(text: string, words: Words): Option<string> {
    if Elements(text).None? then None
    else
      var kept := StoredElements(Elements(text).value, words);
      if kept.None? then None else Some(WrittenList(kept.value))
  }

  /** A list is stored as it was written exactly when each element is written the way PostgreSQL writes it. */
  lemma ListsAreStoredAsWritten(text: string, words: Words)
    requires words.refused <= words.quoted && Elements(text).Some?
    ensures StoredList(text, words) == Some(text) <==>
            forall i :: 0 <= i < |Elements(text).value| ==> Canonical(Elements(text).value[i], words)
  {
    var es := Elements(text).value;
    ElementsAreTheText(text);
    StoredAsWritten(es, words);
    if StoredElements(es, words).Some? {
      var kept := StoredElements(es, words).value;
      StoredIsWellFormed(es, words);
      WrittenElementsReadBack(kept);
    }
  }
}

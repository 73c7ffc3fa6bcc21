/** The distinct texts of a list, in the order in which they first occur. */
module FirstOccurrences {

  function Firsts(texts: seq<string>): seq<string> {
    if texts == [] then []
    else
      var before, last := Firsts(texts[..|texts| - 1]), texts[|texts| - 1];
      if last in before then before else before + [last]
  }

  /** The cap on the references of a section. */
  function FirstTwo(texts: seq<string>): seq<string> {
    if |texts| <= 2 then texts else texts[..2]
  }

  lemma {:induction false} FirstsHas(texts: seq<string>, text: string)
    ensures text in Firsts(texts) <==> text in texts
  {
    if texts != [] {
      var init, last := texts[..|texts| - 1], texts[|texts| - 1];
      assert texts == init + [last];
      FirstsHas(init, text);
      FirstsHas(init, last);
    }
  }

  lemma FirstsNext(texts: seq<string>, text: string)
    ensures Firsts(texts + [text]) == if text in texts then Firsts(texts) else Firsts(texts) + [text]
  {
    assert (texts + [text])[..|texts|] == texts;
    FirstsHas(texts, text);
  }
}

/** json_extract (query/functions.py): the text of a SQL call extracting
    one element of a JSON column. Both arguments are pasted in verbatim. */
module SqlFunctions {

  /** "json_extract(" + blob + ", '" + element + "')". The result can be
      cut back into its parts: the blob sits right after the 13-character
      prefix and the element between ", '" and the closing "')". */
  function JsonExtract(blob: string, element: string): (r: string)
    ensures |r| == |blob| + |element| + 18
    ensures r[..13] == "json_extract("
    ensures r[|r| - 2..] == "')"
    ensures r[13..13 + |blob|] == blob
    ensures r[13 + |blob|..16 + |blob|] == ", '"
    ensures r[16 + |blob|..|r| - 2] == element
  {
    "json_extract(" + blob + ", '" + element + "')"
  }

  /** Knowing where the blob ends, the arguments are recovered from the text. */
  lemma JsonExtractInjective(b1: string, e1: string, b2: string, e2: string)
    requires |b1| == |b2|
    requires JsonExtract(b1, e1) == JsonExtract(b2, e2)
    ensures b1 == b2 && e1 == e2
  {
    var r := JsonExtract(b1, e1);
    assert b1 == r[13..13 + |b1|] == b2;
    assert e1 == r[16 + |b1|..|r| - 2] == e2;
  }

  /** Quotes in the element are not escaped, so two different argument
      pairs can render the same text. */
  lemma JsonExtractNotEscaped()
    ensures JsonExtract("doc", "a', 'b") == JsonExtract("doc, 'a'", "b")
    ensures JsonExtract("doc", "a', 'b") == "json_extract(doc, 'a', 'b')"
  {
  }
}

/** Conversion of text to "1337" (leetspeak): letters that look like digits
    are replaced by those digits, whatever their case. */
module Language {
  import opened Text

  /** The substitution table. `g` is written as `9`; `6` is not used. */
  const LeetTable: map<char, char> := map[
    'o' := '0', 'i' := '1', 'l' := '1', 'z' := '2', 'e' := '3',
    'a' := '4', 's' := '5', 't' := '7', 'b' := '8', 'g' := '9'
  ]

  /** One character: its table value when its lower-case form is a key. */
  function LeetChar(c: char): char {
    var l := Lower(c);
    if l in LeetTable then LeetTable[l] else c
  }

  /** `convert_to_1337`: the text, character by character. */
  function ConvertTo1337(text: string): (r: string)
    ensures |r| == |text|
    ensures forall i :: 0 <= i < |text| ==> r[i] == LeetChar(text[i])
  {
    seq(|text|, i requires 0 <= i < |text| => LeetChar(text[i]))
  }

  /** Exactly the characters whose lower-case form is a table key change, and
      each becomes the table's value for that key. */
  lemma ChangedCharacters(text: string, i: int)
    requires 0 <= i < |text|
    ensures ConvertTo1337(text)[i] != text[i] <==> Lower(text[i]) in LeetTable
    ensures Lower(text[i]) in LeetTable ==> ConvertTo1337(text)[i] == LeetTable[Lower(text[i])]
  {
    var c := text[i];
    if Lower(c) in LeetTable {
      assert LeetTable[Lower(c)] != c by {
        assert '0' <= LeetTable[Lower(c)] <= '9';
        assert c !in LeetTable.Values;
      }
    }
  }

  /** Upper- and lower-case letters are converted alike: converting then
      lowering is the same as lowering then converting. */
  lemma CaseInsensitive(text: string)
    ensures LowerStr(ConvertTo1337(text)) == ConvertTo1337(LowerStr(text))
  {
    var a, b := LowerStr(ConvertTo1337(text)), ConvertTo1337(LowerStr(text));
    forall i | 0 <= i < |text|
      ensures a[i] == b[i]
    {
      assert Lower(Lower(text[i])) == Lower(text[i]);
    }
  }

  /** `E` and `e` both become `3`; `G` and `g` both become `9`. */
  lemma SampleLetters()
    ensures ConvertTo1337("Ee") == "33"
    ensures ConvertTo1337("Gg") == "99"
  {
    assert ConvertTo1337("Ee")[0] == '3' && ConvertTo1337("Ee")[1] == '3';
    assert ConvertTo1337("Gg")[0] == '9' && ConvertTo1337("Gg")[1] == '9';
  }

  /** No character of a converted text is (in lower case) a table key. */
  lemma NoKeyLeft(text: string, i: int)
    requires 0 <= i < |text|
    ensures Lower(ConvertTo1337(text)[i]) !in LeetTable
  {
    var c := text[i];
    if Lower(c) in LeetTable {
      assert '0' <= LeetTable[Lower(c)] <= '9';
    } else {
      assert Lower(Lower(c)) == Lower(c);
    }
  }

  /** Converting twice is converting once. */
  lemma Idempotent(text: string)
    ensures ConvertTo1337(ConvertTo1337(text)) == ConvertTo1337(text)
  {
    var once := ConvertTo1337(text);
    forall i | 0 <= i < |text|
      ensures ConvertTo1337(once)[i] == once[i]
    {
      NoKeyLeft(text, i);
    }
  }
}

/** The automatic moderation scores. A message is split into words by the
    `RE_WORD` pattern; its bad-word score adds up the weights of the listed
    words that occur among them, and its scam-link score adds up the weights
    of the listed links that occur among the links found in it. */
module AutoMod {
  import opened Wrappers

  /** The characters `RE_WORD` excludes from words: U+0000-U+0040,
      U+005B-U+0060, U+007B-U+00BF, U+02B0-U+036F, U+00D7, U+00F7 and
      U+2000-U+2BFF. ASCII digits, white space and punctuation separate
      words; ASCII letters never do. */
  predicate Excluded(c: char)
    ensures ('a' <= c <= 'z' || 'A' <= c <= 'Z') ==> !Excluded(c)
    ensures c as int < 0x80 && !('a' <= c <= 'z' || 'A' <= c <= 'Z') ==> Excluded(c)
  {
    var n := c as int;
    || 0x0000 <= n <= 0x0040
    || 0x005B <= n <= 0x0060
    || 0x007B <= n <= 0x00BF
    || 0x02B0 <= n <= 0x036F
    || n == 0x00D7
    || n == 0x00F7
    || 0x2000 <= n <= 0x2BFF
  }

  predicate IsWord(w: string) {
    |w| > 0 && forall i :: 0 <= i < |w| ==> !Excluded(w[i])
  }

  /** The length of the run of word characters that starts the text. */
  function RunLength(s: string): (n: nat)
    ensures n <= |s|
    ensures forall i :: 0 <= i < n ==> !Excluded(s[i])
    ensures n < |s| ==> Excluded(s[n])
  {
    if |s| == 0 || Excluded(s[0]) then 0 else 1 + RunLength(s[1..])
  }

  /** `[m.group(0) for m in RE_WORD.finditer(s)]`: the maximal runs of word
      characters, from left to right. */
  function Tokens(s: string): (r: seq<string>)
    ensures forall i :: 0 <= i < |r| ==> IsWord(r[i])
    decreases |s|
  {
    if |s| == 0 then []
    else
      var n := RunLength(s);
      if n == 0 then Tokens(s[1..]) else [s[..n]] + Tokens(s[n..])
  }

  /** A text made of word characters only is one word. */
  lemma TokensOfWord(w: string)
    requires IsWord(w)
    ensures Tokens(w) == [w]
  {
    RunLengthOfWord(w);
    assert w[..|w|] == w;
    assert w[|w|..] == [];
  }

  lemma {:induction false} RunLengthOfWord(w: string)
    requires forall i :: 0 <= i < |w| ==> !Excluded(w[i])
    ensures RunLength(w) == |w|
  {
    if |w| > 0 {
      RunLengthOfWord(w[1..]);
    }
  }

  lemma {:induction false} RunLengthOfJoin(a: string, c: char, b: string)
    requires Excluded(c)
    ensures RunLength(a + [c] + b) == RunLength(a + [c])
    ensures RunLength(a + [c]) == RunLength(a)
  {
    if |a| > 0 && !Excluded(a[0]) {
      assert (a + [c] + b)[1..] == a[1..] + [c] + b;
      assert (a + [c])[1..] == a[1..] + [c];
      RunLengthOfJoin(a[1..], c, b);
    }
  }

  /** An excluded character splits a text: the words of `a + [c] + b` are the
      words of `a` followed by the words of `b`. */
  lemma {:induction false} TokensSplit(a: string, c: char, b: string)
    requires Excluded(c)
    ensures Tokens(a + [c] + b) == Tokens(a) + Tokens(b)
    decreases |a|
  {
    var s := a + [c] + b;
    RunLengthOfJoin(a, c, b);
    var n := RunLength(s);
    if |a| == 0 {
      assert s[1..] == b;
    } else if n == 0 {
      assert s[1..] == a[1..] + [c] + b;
      TokensSplit(a[1..], c, b);
    } else {
      assert s[..n] == a[..n];
      if n == |a| {
        assert s[n..] == [c] + b;
        assert Tokens([c] + b) == Tokens(b) by { assert ([c] + b)[1..] == b; }
        assert a[n..] == [];
      } else {
        assert s[n..] == a[n..] + [c] + b;
        TokensSplit(a[n..], c, b);
      }
    }
  }

  /** A row of a word or link list: the text it matches and its weight. */
  datatype Entry = Entry(key: string, weight: int)

  /** The sum of the weights of the entries whose key is among `found`. Each
      entry counts once, however often its key was found. */
  function ScoreAgainst(entries: seq<Entry>, found: seq<string>): (r: int)
    ensures (forall i :: 0 <= i < |entries| ==> entries[i].key !in found) ==> r == 0
  {
    if |entries| == 0 then 0
    else (if entries[0].key in found then entries[0].weight else 0) + ScoreAgainst(entries[1..], found)
  }

  /** Only which texts were found matters, not how often or in what order. */
  lemma {:induction false} ScoreDependsOnFoundSet(entries: seq<Entry>, f1: seq<string>, f2: seq<string>)
    requires forall x :: x in f1 <==> x in f2
    ensures ScoreAgainst(entries, f1) == ScoreAgainst(entries, f2)
  {
    if |entries| > 0 {
      ScoreDependsOnFoundSet(entries[1..], f1, f2);
    }
  }

  /** With non-negative weights a score lies between 0 and the sum of all
      weights. */
  lemma {:induction false} ScoreBounds(entries: seq<Entry>, found: seq<string>)
    requires forall i :: 0 <= i < |entries| ==> entries[i].weight >= 0
    ensures 0 <= ScoreAgainst(entries, found) <= ScoreAgainst(entries, seq(|entries|, i requires 0 <= i < |entries| => entries[i].key))
  {
    var all := seq(|entries|, i requires 0 <= i < |entries| => entries[i].key);
    if |entries| > 0 {
      var rest := seq(|entries| - 1, i requires 0 <= i < |entries| - 1 => entries[1..][i].key);
      ScoreBounds(entries[1..], found);
      assert forall x :: x in rest ==> x in all by {
        forall x | x in rest ensures x in all {
          var i :| 0 <= i < |rest| && rest[i] == x;
          assert all[i + 1] == x;
        }
      }
      ScoreMonotone(entries[1..], rest, all);
      assert entries[0].key == all[0];
    }
  }

  /** Finding more texts never lowers a score with non-negative weights. */
  lemma {:induction false} ScoreMonotone(entries: seq<Entry>, f1: seq<string>, f2: seq<string>)
    requires forall i :: 0 <= i < |entries| ==> entries[i].weight >= 0
    requires forall x :: x in f1 ==> x in f2
    ensures ScoreAgainst(entries, f1) <= ScoreAgainst(entries, f2)
  {
    if |entries| > 0 {
      ScoreMonotone(entries[1..], f1, f2);
    }
  }

  /** `get_bad_word_score`, comparing each listed word with the message's
      words. */
  function BadWordScore(entries: seq<Entry>, content: string): int {
    ScoreAgainst(entries, Tokens(content))
  }

  /** A message that repeats itself, separated by a space, scores as much as
      the message once. */
  lemma RepeatedMessageCountsOnce(entries: seq<Entry>, content: string)
    ensures BadWordScore(entries, content + " " + content) == BadWordScore(entries, content)
  {
    TokensSplit(content, ' ', content);
    assert content + " " + content == content + [' '] + content;
    ScoreDependsOnFoundSet(entries, Tokens(content) + Tokens(content), Tokens(content));
  }

  /** `link.removeprefix("www.")`: one leading `www.` is dropped. */
  function RemoveWww(link: string): (r: string)
    ensures |link| >= 4 && link[..4] == "www." ==> r == link[4..]
    ensures !(|link| >= 4 && link[..4] == "www.") ==> r == link
  {
    if |link| >= 4 && link[..4] == "www." then link[4..] else link
  }

  /** `get_scam_link_score`. `links` are the texts the link pattern found in
      the message, in order; the pattern itself is not part of this model. */
  function ScamLinkScore(entries: seq<Entry>, links: seq<string>): int {
    ScoreAgainst(entries, seq(|links|, i requires 0 <= i < |links| => RemoveWww(links[i])))
  }

  /** A link found with a leading `www.` counts like the link without it
      (only one `www.` is dropped, so the link itself must not start with
      another). */
  lemma WwwIsIgnored(entries: seq<Entry>, link: string)
    requires !(|link| >= 4 && link[..4] == "www.")
    ensures ScamLinkScore(entries, ["www." + link]) == ScamLinkScore(entries, [link])
  {
    {
      assert ("www." + link)[4..] == link;
      var f1 := seq(1, i requires 0 <= i < 1 => RemoveWww(["www." + link][i]));
      var f2 := seq(1, i requires 0 <= i < 1 => RemoveWww([link][i]));
      assert f1 == f2;
    }
  }

  // The queries as written read columns that the tables do not have.

  /** A row of the `bad_words` table. */
  datatype BadWordRow = BadWordRow(word: string, weight: int, reason: string)

  /** A row of the `scam_links` table. */
  datatype ScamLinkRow = ScamLinkRow(link: string, reason: string)

  /** `AttributeError` for the column named. */
  datatype MissingColumn = MissingColumn(column: string)

  /** `get_bad_word_score` as written: the filter reads `entry.link`, which a
      `bad_words` row does not have, so the first row raises. */
  function BadWordScoreAsWritten(rows: seq<BadWordRow>, content: string): (r: Result<int, MissingColumn>)
    ensures r.Ok? <==> rows == []
  {
    if rows == [] then Ok(0) else Err(MissingColumn("link"))
  }

  /** `get_scam_link_score` as written: the sum reads `entry.weight`, which a
      `scam_links` row does not have, so the first row whose link was found
      raises. */
  function ScamLinkScoreAsWritten(rows: seq<ScamLinkRow>, links: seq<string>): (r: Result<int, MissingColumn>)
    ensures r.Ok? <==> forall i :: 0 <= i < |rows| ==> rows[i].link !in seq(|links|, j requires 0 <= j < |links| => RemoveWww(links[j]))
  {
    var found := seq(|links|, j requires 0 <= j < |links| => RemoveWww(links[j]));
    if |rows| == 0 then Ok(0)
    else if rows[0].link in found then Err(MissingColumn("weight"))
    else ScamLinkScoreAsWritten(rows[1..], links)
  }

  /** The bad-word rows as entries keyed by their word. */
  function BadWordEntries(rows: seq<BadWordRow>): (r: seq<Entry>)
    ensures |r| == |rows|
    ensures forall i :: 0 <= i < |rows| ==> r[i] == Entry(rows[i].word, rows[i].weight)
  {
    seq(|rows|, i requires 0 <= i < |rows| => Entry(rows[i].word, rows[i].weight))
  }

  /** One listed word that occurs in the message: as written the score
      raises, while comparing the word column gives its weight. */
  lemma BadWordDiscrepancy()
    ensures BadWordScoreAsWritten([BadWordRow("scam", 5, "spam")], "scam") == Err(MissingColumn("link"))
    ensures BadWordScore(BadWordEntries([BadWordRow("scam", 5, "spam")]), "scam") == 5
  {
    var w := "scam";
    assert IsWord(w) by {
      forall i | 0 <= i < |w| ensures !Excluded(w[i]) {
        assert 'a' <= w[i] <= 'z';
      }
    }
    TokensOfWord(w);
    assert BadWordEntries([BadWordRow("scam", 5, "spam")]) == [Entry("scam", 5)];
  }

  /** One listed link that occurs in the message: as written the score
      raises, while a weighted entry for the link gives its weight. */
  lemma ScamLinkDiscrepancy()
    ensures ScamLinkScoreAsWritten([ScamLinkRow("evil.example", "phishing")], ["www.evil.example"]) == Err(MissingColumn("weight"))
    ensures ScamLinkScore([Entry("evil.example", 10)], ["www.evil.example"]) == 10
  {
    assert RemoveWww("www.evil.example") == "evil.example";
    var found := seq(1, j requires 0 <= j < 1 => RemoveWww(["www.evil.example"][j]));
    assert found == ["evil.example"];
  }
}

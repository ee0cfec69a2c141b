/** `jp_to_pubmed_query`: the language model's completion becomes a one-line
    PubMed search string. The completion itself is a parameter. */
module Query {
  import opened Wrappers
  import opened Errors
  import opened Strings

  /** `s.replace(c, "")`: every occurrence of `c` deleted, everything else kept. */
  function RemoveAll(s: string, c: char): (r: string)
    ensures c !in r
    ensures forall x :: x != c ==> multiset(r)[x] == multiset(s)[x]
    ensures c !in s ==> r == s
  {
    if s == [] then []
    else
      assert s == [s[0]] + s[1..];
      (if s[0] == c then [] else [s[0]]) + RemoveAll(s[1..], c)
  }

  /** Deleting distributes over concatenation, so the characters that remain keep
      their order. */
  lemma {:induction false} RemoveAllAppend(a: string, b: string, c: char)
    ensures RemoveAll(a + b, c) == RemoveAll(a, c) + RemoveAll(b, c)
  {
    if a != [] {
      assert (a + b)[0] == a[0];
      assert (a + b)[1..] == a[1..] + b;
      RemoveAllAppend(a[1..], b, c);
    } else {
      assert a + b == b;
    }
  }

  /** `s.replace(a, b)` for one character by one character: position by position. */
  function ReplaceAll(s: string, a: char, b: char): (r: string)
    ensures |r| == |s|
    ensures forall i :: 0 <= i < |s| ==> r[i] == (if s[i] == a then b else s[i])
  {
    if s == [] then [] else [if s[0] == a then b else s[0]] + ReplaceAll(s[1..], a, b)
  }

  /** The sanitising expression: strip, delete every backtick, turn every newline
      into a space, strip again. */
  function Sanitise(completion: string): (q: string)
    ensures '`' !in q && '\n' !in q
    ensures Trimmed(q)
  {
    var s1 := Strip(completion);
    var s2 := RemoveAll(s1, '`');
    var s3 := ReplaceAll(s2, '\n', ' ');
    assert '`' !in s3 && '\n' !in s3 by {
      forall i | 0 <= i < |s3| ensures s3[i] != '`' && s3[i] != '\n' {
        assert s2[i] in s2;
      }
    }
    var q := Strip(s3);
    assert '`' !in q && '\n' !in q by {
      if '`' in q { StripAddsNothing(s3, '`'); }
      if '\n' in q { StripAddsNothing(s3, '\n'); }
    }
    q
  }

  /** `jp_to_pubmed_query(jp_text)`: ask the model (`complete`), sanitise its answer.
      A failing model call propagates; no fallback query is made up. */
  function Translate(jpText: string, complete: string -> Result<string, Failure>): (r: Result<string, Failure>)
    ensures complete(jpText).Err? ==> r == Err(complete(jpText).error)
    ensures complete(jpText).Ok? ==> r == Ok(Sanitise(complete(jpText).value))
    ensures complete(jpText).Ok? ==> '`' !in r.value && '\n' !in r.value && Trimmed(r.value)
  {
    match complete(jpText)
    case Err(e) => Err(e)
    case Ok(raw) => Ok(Sanitise(raw))
  }

  /** Sanitising a sanitised query changes nothing. */
  lemma SanitiseIdempotent(completion: string)
    ensures Sanitise(Sanitise(completion)) == Sanitise(completion)
  {
    var q := Sanitise(completion);
    assert ReplaceAll(q, '\n', ' ') == q;
  }

  /** Every character that is neither whitespace nor a backtick survives sanitising. */
  lemma SanitiseKeepsContent(completion: string, x: char)
    requires x in completion && !IsSpace(x) && x != '`'
    ensures x in Sanitise(completion)
  {
    var s1 := Strip(completion);
    StripKeepsContent(completion, x);
    var s2 := RemoveAll(s1, '`');
    assert multiset(s2)[x] == multiset(s1)[x] > 0;
    var s3 := ReplaceAll(s2, '\n', ' ');
    var k :| 0 <= k < |s2| && s2[k] == x;
    assert s3[k] == x;
    StripKeepsContent(s3, x);
  }

  /** A completion made only of backticks and whitespace sanitises to the empty
      query: nothing in the code rules out an empty search term. */
  lemma SanitiseMayBeEmpty()
    ensures Sanitise("```\n") == ""
  {
    var raw := "```\n";
    assert raw[..3] == "```";
    assert RStrip(raw) == "```";
    assert Strip(raw) == "```";
    assert RemoveAll("```", '`') == "";
  }

  /** On a completion that is already trimmed and free of backticks, sanitising only
      turns line feeds into spaces (position by position, by `ReplaceAll`'s contract):
      every other character, a carriage return of a CRLF line break included, stays
      where it was. */
  lemma OnlyLineFeedsReplaced(completion: string)
    requires Trimmed(completion) && '`' !in completion
    ensures Sanitise(completion) == ReplaceAll(completion, '\n', ' ')
  {
    var line := ReplaceAll(completion, '\n', ' ');
    ReplacingLineFeedsKeepsTrimmed(completion);
    calc {
      Sanitise(completion);
      Strip(ReplaceAll(RemoveAll(Strip(completion), '`'), '\n', ' '));
      { assert Strip(completion) == completion; }
      Strip(ReplaceAll(RemoveAll(completion, '`'), '\n', ' '));
      { assert RemoveAll(completion, '`') == completion; }
      Strip(line);
      line;
    }
  }

  lemma ReplacingLineFeedsKeepsTrimmed(s: string)
    requires Trimmed(s)
    ensures Trimmed(ReplaceAll(s, '\n', ' '))
  {
    var line := ReplaceAll(s, '\n', ' ');
    if s != [] {
      assert IsSpace('\n');
      assert line[0] == s[0] && line[|line| - 1] == s[|s| - 1];
    }
  }
}

/** Keyword input and the client-side AND filter of the search (narasearch_v1.py: the
    tokenizer of `execute_search`, line 664, and the filter of `SearchWorker.run`, lines 279-304). */
module Keywords {
  import opened Common
  import opened Text
  import opened Decimal

  /** The characters of the `[, ]+` split pattern. */
  predicate IsSeparator(c: char)
  {
    c == ',' || c == ' '
  }

  /** A keyword token: non-empty, with no comma and no space. */
  predicate IsToken(t: string)
  {
    |t| > 0 && forall i :: 0 <= i < |t| ==> !IsSeparator(t[i])
  }

  /** Splits at every single separator character, keeping the empty pieces between two
      adjacent separators (they are dropped afterwards, which makes runs act as one). */
  function SplitAtSeparators(s: string): (pieces: seq<string>)
    ensures |pieces| >= 1
    ensures forall k, i :: 0 <= k < |pieces| && 0 <= i < |pieces[k]| ==> !IsSeparator(pieces[k][i])
    decreases |s|
  {
    if |s| == 0 then [""]
    else
      var rest := SplitAtSeparators(s[1..]);
      if IsSeparator(s[0]) then [""] + rest else [[s[0]] + rest[0]] + rest[1..]
  }

  /** The condition of the comprehension's `if k`. */
  predicate NonEmpty(piece: string)
  {
    |piece| > 0
  }

  /** The comprehension's `if k`: the non-empty pieces, in order. */
  function DropEmpty(pieces: seq<string>): (r: seq<string>)
    ensures |r| <= |pieces|
    ensures forall k :: 0 <= k < |r| ==> |r[k]| > 0 && r[k] in pieces
    ensures forall piece :: piece in r <==> piece in pieces && |piece| > 0
    ensures IsSubsequence(r, pieces)
    ensures (forall k :: 0 <= k < |pieces| ==> |pieces[k]| > 0) ==> r == pieces
  {
    FilterMembers(pieces, NonEmpty);
    FilterSubsequence(pieces, NonEmpty);
    if forall k :: 0 <= k < |pieces| ==> NonEmpty(pieces[k]) then
      FilterAll(pieces, NonEmpty);
      Filter(pieces, NonEmpty)
    else
      Filter(pieces, NonEmpty)
  }

  /** `[k for k in re.split(r'[, ]+', text.strip()) if k]`. */
  function Tokenize(input: string): (tokens: seq<string>)
    ensures forall k :: 0 <= k < |tokens| ==> IsToken(tokens[k])
  {
    DropEmpty(SplitAtSeparators(Strip(input)))
  }

  lemma {:induction false} SplitPlain(t: string)
    requires forall i :: 0 <= i < |t| ==> !IsSeparator(t[i])
    ensures SplitAtSeparators(t) == [t]
    decreases |t|
  {
    if |t| > 0 {
      SplitPlain(t[1..]);
      assert [t[0]] + t[1..] == t;
    }
  }

  lemma {:induction false} SplitAfterPlain(t: string, c: char, u: string)
    requires forall i :: 0 <= i < |t| ==> !IsSeparator(t[i])
    requires IsSeparator(c)
    ensures SplitAtSeparators(t + [c] + u) == [t] + SplitAtSeparators(u)
    decreases |t|
  {
    var s := t + [c] + u;
    if |t| == 0 {
      assert s[1..] == u;
    } else {
      assert s[1..] == t[1..] + [c] + u;
      SplitAfterPlain(t[1..], c, u);
      assert [t[0]] + t[1..] == t;
    }
  }

  /** A run of one or more commas and spaces, which `[, ]+` matches as a single separator. */
  predicate IsSeparatorRun(sep: string)
  {
    |sep| > 0 && forall i :: 0 <= i < |sep| ==> IsSeparator(sep[i])
  }

  /** Separators in front of the text contribute only empty pieces, which are dropped. */
  lemma {:induction false} DropLeadingSeparators(sep: string, u: string)
    requires forall i :: 0 <= i < |sep| ==> IsSeparator(sep[i])
    ensures DropEmpty(SplitAtSeparators(sep + u)) == DropEmpty(SplitAtSeparators(u))
    decreases |sep|
  {
    if |sep| > 0 {
      var s := sep + u;
      assert s[0] == sep[0] && s[1..] == sep[1..] + u;
      DropEmptyCons("", SplitAtSeparators(s[1..]));
      DropLeadingSeparators(sep[1..], u);
    } else {
      assert sep + u == u;
    }
  }

  /** A token followed by a separator run yields that token, then the tokens of the rest. */
  lemma TokenThenRun(t: string, sep: string, u: string)
    requires IsToken(t) && IsSeparatorRun(sep)
    ensures DropEmpty(SplitAtSeparators(t + sep + u)) == [t] + DropEmpty(SplitAtSeparators(u))
  {
    var rest := sep[1..] + u;
    assert t + sep + u == t + [sep[0]] + rest by {
      assert sep == [sep[0]] + sep[1..];
    }
    var pieces := SplitAtSeparators(rest);
    assert SplitAtSeparators(t + sep + u) == [t] + pieces by {
      SplitAfterPlain(t, sep[0], rest);
    }
    assert DropEmpty([t] + pieces) == [t] + DropEmpty(pieces) by {
      DropEmptyCons(t, pieces);
    }
    assert DropEmpty(pieces) == DropEmpty(SplitAtSeparators(u)) by {
      DropLeadingSeparators(sep[1..], u);
    }
  }

  /** A token alone yields just itself. */
  lemma TokenAlone(t: string)
    requires IsToken(t)
    ensures DropEmpty(SplitAtSeparators(t)) == [t]
  {
    SplitPlain(t);
  }

  /** Tokens joined by one separator run split back into the tokens. */
  lemma {:induction false} SplitJoin(ts: seq<string>, sep: string)
    requires |ts| > 0 && IsSeparatorRun(sep)
    requires forall k :: 0 <= k < |ts| ==> IsToken(ts[k])
    ensures DropEmpty(SplitAtSeparators(Join(ts, sep))) == ts
    decreases |ts|
  {
    if |ts| == 1 {
      TokenAlone(ts[0]);
    } else {
      TokenThenRun(ts[0], sep, Join(ts[1..], sep));
      SplitJoin(ts[1..], sep);
    }
  }

  /** Tokens with the separator run `seps[k]` between `ts[k]` and `ts[k + 1]`. */
  function Interleave(ts: seq<string>, seps: seq<string>): string
    requires |ts| == |seps| + 1
    decreases |seps|
  {
    if |seps| == 0 then ts[0] else ts[0] + seps[0] + Interleave(ts[1..], seps[1..])
  }

  /** A token followed only by separators yields just the token. */
  lemma TokenThenSeparators(t: string, trail: string)
    requires IsToken(t)
    requires forall i :: 0 <= i < |trail| ==> IsSeparator(trail[i])
    ensures DropEmpty(SplitAtSeparators(t + trail)) == [t]
  {
    if |trail| == 0 {
      assert t + trail == t;
      TokenAlone(t);
    } else {
      assert t + trail == t + trail + "";
      TokenThenRun(t, trail, "");
      assert DropEmpty(SplitAtSeparators("")) == [];
    }
  }

  /** Tokens with any separator runs between them, and any separators after the last one,
      split back into the tokens. */
  lemma {:induction false} SplitInterleave(ts: seq<string>, seps: seq<string>, trail: string)
    requires |ts| == |seps| + 1
    requires forall k :: 0 <= k < |ts| ==> IsToken(ts[k])
    requires forall k :: 0 <= k < |seps| ==> IsSeparatorRun(seps[k])
    requires forall i :: 0 <= i < |trail| ==> IsSeparator(trail[i])
    ensures DropEmpty(SplitAtSeparators(Interleave(ts, seps) + trail)) == ts
    decreases |seps|
  {
    if |seps| == 0 {
      assert Interleave(ts, seps) == ts[0];
      TokenThenSeparators(ts[0], trail);
    } else {
      var rest := Interleave(ts[1..], seps[1..]) + trail;
      assert Interleave(ts, seps) + trail == ts[0] + seps[0] + rest by {
        assert Interleave(ts, seps) == ts[0] + seps[0] + Interleave(ts[1..], seps[1..]);
      }
      assert DropEmpty(SplitAtSeparators(ts[0] + seps[0] + rest)) == [ts[0]] + DropEmpty(SplitAtSeparators(rest)) by {
        TokenThenRun(ts[0], seps[0], rest);
      }
      assert DropEmpty(SplitAtSeparators(rest)) == ts[1..] by {
        SplitInterleave(ts[1..], seps[1..], trail);
      }
      assert [ts[0]] + ts[1..] == ts;
    }
  }

  /** Joined non-empty tokens start with the first token's first character and end with the
      last token's last character. */
  lemma {:induction false} JoinEnds(ts: seq<string>, sep: string)
    requires |ts| > 0 && forall k :: 0 <= k < |ts| ==> |ts[k]| > 0
    ensures var j := Join(ts, sep);
      |j| > 0 && j[0] == ts[0][0] && j[|j| - 1] == ts[|ts| - 1][|ts[|ts| - 1]| - 1]
    decreases |ts|
  {
    if |ts| > 1 {
      JoinEnds(ts[1..], sep);
    }
  }

  /** No whitespace that `strip()` removes at the start of the text. */
  predicate StartsBare(t: string)
  {
    |t| == 0 || !IsSpace(t[0])
  }

  /** No whitespace that `strip()` removes at the end of the text. */
  predicate EndsBare(t: string)
  {
    |t| == 0 || !IsSpace(t[|t| - 1])
  }

  /** Tokens joined by one run of commas and spaces (", ", " ", ",,") tokenize back to the same
      tokens, provided the text does not begin or end with whitespace that `strip()` would
      remove. */
  lemma TokenizeJoin(ts: seq<string>, sep: string)
    requires |ts| > 0 && IsSeparatorRun(sep)
    requires forall k :: 0 <= k < |ts| ==> IsToken(ts[k])
    requires StartsBare(ts[0]) && EndsBare(ts[|ts| - 1])
    ensures Tokenize(Join(ts, sep)) == ts
  {
    JoinEnds(ts, sep);
    StripKeeps(Join(ts, sep));
    SplitJoin(ts, sep);
  }

  /** The general form. Whatever the stripped input looks like, it is some separators, then
      keywords with a run of commas and spaces between each two, then some separators; each run
      acts as one separator, the separators at either end add nothing, and the keywords come
      back in order. */
  lemma TokenizeInterleave(input: string, lead: string, ts: seq<string>, seps: seq<string>, trail: string)
    requires |ts| == |seps| + 1
    requires forall k :: 0 <= k < |ts| ==> IsToken(ts[k])
    requires forall k :: 0 <= k < |seps| ==> IsSeparatorRun(seps[k])
    requires forall i :: 0 <= i < |lead| ==> IsSeparator(lead[i])
    requires forall i :: 0 <= i < |trail| ==> IsSeparator(trail[i])
    requires Strip(input) == lead + (Interleave(ts, seps) + trail)
    ensures Tokenize(input) == ts
  {
    SplitFramed(lead, ts, seps, trail);
  }

  /** `TokenizeInterleave` before `strip()`: separators at the front add nothing either. */
  lemma SplitFramed(lead: string, ts: seq<string>, seps: seq<string>, trail: string)
    requires |ts| == |seps| + 1
    requires forall k :: 0 <= k < |ts| ==> IsToken(ts[k])
    requires forall k :: 0 <= k < |seps| ==> IsSeparatorRun(seps[k])
    requires forall i :: 0 <= i < |lead| ==> IsSeparator(lead[i])
    requires forall i :: 0 <= i < |trail| ==> IsSeparator(trail[i])
    ensures DropEmpty(SplitAtSeparators(lead + (Interleave(ts, seps) + trail))) == ts
  {
    DropLeadingSeparators(lead, Interleave(ts, seps) + trail);
    SplitInterleave(ts, seps, trail);
  }

  /** The usual input: two keywords separated by a comma and a space. */
  lemma TokenizeCommaSpace()
    ensures Tokenize("어린이, 철도") == ["어린이", "철도"]
  {
    var ts := ["어린이", "철도"];
    assert IsToken(ts[0]) && IsToken(ts[1]);
    assert Join(ts, ", ") == "어린이, 철도";
    TokenizeJoin(ts, ", ");
  }

  /** The input yields no token exactly when, once stripped, it holds only commas and spaces;
      such input is rejected before any request is made. */
  lemma TokenizeEmpty(input: string)
    ensures Tokenize(input) == [] <==> forall i :: 0 <= i < |Strip(input)| ==> IsSeparator(Strip(input)[i])
  {
    NoTokenIffSeparators(Strip(input));
  }

  lemma {:induction false} NoTokenIffSeparators(s: string)
    ensures DropEmpty(SplitAtSeparators(s)) == [] <==> forall i :: 0 <= i < |s| ==> IsSeparator(s[i])
    decreases |s|
  {
    if |s| > 0 {
      NoTokenIffSeparators(s[1..]);
      var rest := SplitAtSeparators(s[1..]);
      if IsSeparator(s[0]) {
        AllSeparatorsCons(s);
        DropEmptyCons("", rest);
      } else {
        DropEmptyCons([s[0]] + rest[0], rest[1..]);
      }
    }
  }

  /** A text is all separators when its first character is one and the rest is all separators. */
  lemma AllSeparatorsCons(s: string)
    requires |s| > 0
    ensures (forall i :: 0 <= i < |s| ==> IsSeparator(s[i]))
      <==> IsSeparator(s[0]) && forall i :: 0 <= i < |s[1..]| ==> IsSeparator(s[1..][i])
  {
    if IsSeparator(s[0]) && forall i :: 0 <= i < |s[1..]| ==> IsSeparator(s[1..][i]) {
      forall i | 0 <= i < |s| ensures IsSeparator(s[i]) {
        if i > 0 {
          assert s[i] == s[1..][i - 1];
        }
      }
    }
  }

  lemma DropEmptyCons(p: string, rest: seq<string>)
    ensures DropEmpty([p] + rest) == (if |p| > 0 then [p] else []) + DropEmpty(rest)
  {
    FilterCons(p, rest, NonEmpty);
  }

  /** No space and no upper-case ASCII letter. */
  predicate IsNormalized(s: string)
  {
    forall i :: 0 <= i < |s| ==> s[i] != ' ' && !('A' <= s[i] <= 'Z')
  }

  /** `s.replace(" ", "").lower()`: the characters of `s` other than spaces, in order, each
      lower-cased. */
  function Normalize(s: string): (r: string)
    ensures |r| <= |s|
    ensures IsNormalized(r)
    ensures |r| == |RemoveChar(s, ' ')|
    ensures forall i :: 0 <= i < |r| ==> r[i] == LowerChar(RemoveChar(s, ' ')[i])
  {
    Lower(RemoveChar(s, ' '))
  }

  /** `item.get(title_field, '')`. */
  function Title(rec: Record, field: string): string
  {
    if field in rec then rec[field] else ""
  }

  /** Every normalised keyword is a substring of the normalised title. */
  predicate Matches(rec: Record, keywords: seq<string>, field: string)
  {
    forall k :: 0 <= k < |keywords| ==> Contains(Normalize(Title(rec, field)), Normalize(keywords[k]))
  }

  /** The record test of the filter. */
  function MatchesAll(keywords: seq<string>, field: string): Record -> bool
  {
    rec => Matches(rec, keywords, field)
  }

  /** The records that match, in their original order. */
  function KeepMatching(items: seq<Record>, keywords: seq<string>, field: string): (kept: seq<Record>)
    ensures |kept| <= |items|
  {
    Filter(items, MatchesAll(keywords, field))
  }

  /** The filter keeps exactly the matching records. */
  lemma KeepMatchingMembers(items: seq<Record>, keywords: seq<string>, field: string)
    ensures forall r :: r in KeepMatching(items, keywords, field) <==> r in items && Matches(r, keywords, field)
  {
    FilterMembers(items, MatchesAll(keywords, field));
  }

  /** The worker's filter: with no keywords the aggregate passes through unchanged. */
  function KeywordFilter(items: seq<Record>, keywords: seq<string>, field: string): (kept: seq<Record>)
    ensures |keywords| == 0 ==> kept == items
    ensures |keywords| > 0 ==> kept == KeepMatching(items, keywords, field)
  {
    if |keywords| > 0 then KeepMatching(items, keywords, field) else items
  }

  /** With no keywords every record matches, so the branch on empty keywords only saves work. */
  lemma KeepMatchingNoKeywords(items: seq<Record>, field: string)
    ensures KeepMatching(items, [], field) == items
  {
    FilterAll(items, MatchesAll([], field));
  }

  /** The filter keeps the order of the aggregate: its output is a subsequence of its input. */
  lemma KeepMatchingSubsequence(items: seq<Record>, keywords: seq<string>, field: string)
    ensures IsSubsequence(KeepMatching(items, keywords, field), items)
  {
    FilterSubsequence(items, MatchesAll(keywords, field));
  }

  /** Extending the scanned prefix by one record appends that record exactly when it matches. */
  lemma KeepMatchingStep(items: seq<Record>, n: nat, keywords: seq<string>, field: string)
    requires n < |items|
    ensures KeepMatching(items[..n + 1], keywords, field)
      == KeepMatching(items[..n], keywords, field) + (if Matches(items[n], keywords, field) then [items[n]] else [])
  {
    var p := MatchesAll(keywords, field);
    FilterAppend(items[..n], [items[n]], p);
    assert items[..n + 1] == items[..n] + [items[n]];
    FilterCons(items[n], [], p);
    assert [items[n]] + [] == [items[n]];
  }

  /** Filtering twice keeps the same records as filtering once. */
  lemma KeepMatchingIdempotent(items: seq<Record>, keywords: seq<string>, field: string)
    ensures KeepMatching(KeepMatching(items, keywords, field), keywords, field) == KeepMatching(items, keywords, field)
  {
    FilterIdempotent(items, MatchesAll(keywords, field));
  }

  /** The worker's inner loop: the keywords are tried in order until one is missing from the
      normalised title. */
  method TitleHasAll(titleClean: string, keywords: seq<string>) returns (isMatch: bool)
    ensures isMatch <==> forall j :: 0 <= j < |keywords| ==> Contains(titleClean, Normalize(keywords[j]))
  {
    isMatch := true;
    var k := 0;
    while k < |keywords|
      invariant 0 <= k <= |keywords|
      invariant forall j :: 0 <= j < k ==> Contains(titleClean, Normalize(keywords[j]))
    {
      if !Contains(titleClean, Normalize(keywords[k])) {
        isMatch := false;
        break;
      }
      k := k + 1;
    }
  }

  /** The worker's outer loop: matching records are appended in their original order. */
  method FilterItems(allItems: seq<Record>, keywords: seq<string>, titleField: string) returns (finalItems: seq<Record>)
    ensures finalItems == KeywordFilter(allItems, keywords, titleField)
  {
    if |keywords| == 0 {
      return allItems;
    }
    finalItems := [];
    var n := 0;
    while n < |allItems|
      invariant 0 <= n <= |allItems|
      invariant finalItems == KeepMatching(allItems[..n], keywords, titleField)
    {
      var item := allItems[n];
      var isMatch := TitleHasAll(Normalize(Title(item, titleField)), keywords);
      KeepMatchingStep(allItems, n, keywords, titleField);
      if isMatch {
        finalItems := finalItems + [item];
      }
      n := n + 1;
    }
    assert allItems[..n] == allItems;
  }

  /** The message for a non-empty aggregate that no record survives: it names the first
      keyword and the number fetched, and lists the other keywords only when there are some. */
  function NoMatchMessage(keywords: seq<string>, fetched: nat): string
    requires |keywords| > 0
  {
    var detail := if |keywords| > 1 then "상세 조건('" + Join(keywords[1..], ", ") + "')이" else "조건이";
    "'" + keywords[0] + "' 관련 데이터 " + DigitsOf(fetched) + "개를 가져왔으나,\n" + detail + " 포함된 공고는 없습니다."
  }

  /** Text with no space and no upper-case ASCII letter is already normalised. */
  lemma NormalizeKeeps(s: string)
    requires IsNormalized(s)
    ensures Normalize(s) == s
  {
  }

  /** Normalising two texts separated by a space is normalising each and concatenating. */
  lemma NormalizeSpaced(a: string, b: string)
    ensures Normalize(a + " " + b) == Normalize(a) + Normalize(b)
  {
    RemoveSpaceBetween(a, b);
    LowerAppend(RemoveChar(a, ' '), RemoveChar(b, ' '));
  }

  lemma RemoveSpaceBetween(a: string, b: string)
    ensures RemoveChar(a + " " + b, ' ') == RemoveChar(a, ' ') + RemoveChar(b, ' ')
  {
    RemoveCharAppend(a + " ", b, ' ');
    RemoveCharAppend(a, " ", ' ');
  }

  /** A needle whose first character never appears in the text is not contained in it. */
  lemma NotContainedWithoutFirstChar(hay: string, needle: string)
    requires |needle| > 0 && needle[0] !in hay
    ensures !Contains(hay, needle)
  {
  }

  /** Appending a space and a word that is already normalised appends just the word. */
  lemma NormalizeSpacedBare(a: string, b: string)
    requires IsNormalized(b)
    ensures Normalize(a + " " + b) == Normalize(a) + b
  {
    NormalizeKeeps(b);
    NormalizeSpaced(a, b);
  }

  /** Two normalised words separated by a space normalise to the two words run together. */
  lemma NormalizeBareWords(a: string, b: string)
    requires IsNormalized(a) && IsNormalized(b)
    ensures Normalize(a + " " + b) == a + b
  {
    NormalizeKeeps(a);
    NormalizeSpacedBare(a, b);
  }

  lemma NormalizeFourWords(a: string, b: string, c: string, d: string)
    requires IsNormalized(a) && IsNormalized(b) && IsNormalized(c) && IsNormalized(d)
    ensures Normalize(a + " " + b + " " + c + " " + d) == a + b + c + d
  {
    NormalizeSpacedBare(a + " " + b + " " + c, d);
    NormalizeSpacedBare(a + " " + b, c);
    NormalizeBareWords(a, b);
  }

  /** A title holding both keywords passes the filter. */
  lemma FilterExampleKept(rec: Record, title: string, keywords: seq<string>)
    requires title == "의왕 어린이 철도 축제" && rec == map["bidNtceNm" := title] && keywords == ["어린이", "철도"]
    ensures Matches(rec, keywords, "bidNtceNm")
  {
    var hit := "의왕" + "어린이" + "철도" + "축제";
    assert Normalize(Title(rec, "bidNtceNm")) == hit by {
      assert Title(rec, "bidNtceNm") == title;
      ExampleTitleNormalized();
    }
    HitExample(hit, keywords);
  }

  lemma ExampleTitleNormalized()
    ensures Normalize("의왕 어린이 철도 축제") == "의왕" + "어린이" + "철도" + "축제"
  {
    var w1, w2, w3, w4 := "의왕", "어린이", "철도", "축제";
    assert "의왕 어린이 철도 축제" == w1 + " " + w2 + " " + w3 + " " + w4;
    NormalizeFourWords(w1, w2, w3, w4);
  }

  lemma HitExample(hit: string, keywords: seq<string>)
    requires hit == "의왕" + "어린이" + "철도" + "축제" && keywords == ["어린이", "철도"]
    ensures Contains(hit, Normalize(keywords[0])) && Contains(hit, Normalize(keywords[1]))
  {
    NormalizeKeeps(keywords[0]);
    NormalizeKeeps(keywords[1]);
    assert OccursAt(hit, keywords[0], 2);
    assert OccursAt(hit, keywords[1], 5);
  }

  /** A title holding only the first keyword is filtered out. */
  lemma FilterExampleDropped(rec: Record, title: string, keywords: seq<string>)
    requires title == "어린이 도서관" && rec == map["bidNtceNm" := title] && keywords == ["어린이", "철도"]
    ensures !Matches(rec, keywords, "bidNtceNm")
  {
    var w1, w2 := "어린이", "도서관";
    assert title == w1 + " " + w2;
    NormalizeBareWords(w1, w2);
    NormalizeKeeps(keywords[1]);
    NotContainedWithoutFirstChar(w1 + w2, keywords[1]);
  }

}

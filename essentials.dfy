/**
  The essential-word extractor of essentialshandler/essentialshandler.go:
  inscriptions are cut into words, each word is cleaned of quotes and
  trailing punctuation, words of one rune or with a lowercase Cyrillic
  letter are dropped, and the survivors of all inscriptions of a date are
  counted into the map stored for that date.

  `config.LowercaseCyrillicRegex` is not part of this model: which runes it
  matches is a parameter `lower`, and the regex is taken to match a string
  exactly when one of its runes is such a rune.
 */
module Essentials {
  import opened Wrappers
  import opened GoText
  import opened Config
  import opened Db

  /** The cutset of the `strings.TrimRight` in `cleanEssentialWord`. */
  const TrailingPunctuation: set<char> := {'.', ',', ':', ';', '!', '?'}

  // ---------------------------------------------------------------------------
  // cleanEssentialWord, containsLowercaseCyrillic
  // ---------------------------------------------------------------------------

  /** `cleanEssentialWord`: every '"' removed, then the trailing run of
      `.,:;!?` cut off. Only the end is trimmed: what remains is a prefix of
      the quote-free word that does not end in punctuation, and everything
      cut off behind it is punctuation. */
  function CleanEssentialWord(s: string): (r: string)
    ensures '"' !in r
    ensures |r| == 0 || r[|r| - 1] !in TrailingPunctuation
    ensures |r| <= |RemoveAll(s, '"')|
    ensures r == RemoveAll(s, '"')[..|r|]
    ensures forall i :: |r| <= i < |RemoveAll(s, '"')| ==> RemoveAll(s, '"')[i] in TrailingPunctuation
  {
    TrimRight(RemoveAll(s, '"'), TrailingPunctuation)
  }

  /** A word that neither holds a quote nor ends in punctuation is left as is. */
  lemma CleanFixedPoint(w: string)
    requires '"' !in w
    requires |w| == 0 || w[|w| - 1] !in TrailingPunctuation
    ensures CleanEssentialWord(w) == w
  {
    RemoveAllAbsent(w, '"');
  }

  /** Cleaning twice is cleaning once. */
  lemma CleanIdempotent(s: string)
    ensures CleanEssentialWord(CleanEssentialWord(s)) == CleanEssentialWord(s)
  {
    CleanFixedPoint(CleanEssentialWord(s));
  }

  /** Leading punctuation stays: a punctuation rune (or any rune but '"') in
      front of a clean word survives cleaning. */
  lemma CleanKeepsLeadingPunctuation(p: char, w: string)
    requires p != '"' && '"' !in w
    requires |w| > 0 && w[|w| - 1] !in TrailingPunctuation
    ensures CleanEssentialWord([p] + w) == [p] + w
  {
    CleanFixedPoint([p] + w);
  }

  /** Trailing punctuation after a clean word goes, however much of it there is. */
  lemma CleanDropsTrailingPunctuation(w: string, tail: string)
    requires '"' !in w && '"' !in tail
    requires |w| > 0 && w[|w| - 1] !in TrailingPunctuation
    requires forall i :: 0 <= i < |tail| ==> tail[i] in TrailingPunctuation
    ensures CleanEssentialWord(w + tail) == w
  {
    RemoveAllAbsent(w + tail, '"');
    TrimTrailing(w, tail);
  }

  /** TrimRight peels the punctuation tail off one rune at a time and stops
      at the last rune of the word. */
  lemma {:induction false} TrimTrailing(w: string, tail: string)
    requires |w| > 0 && w[|w| - 1] !in TrailingPunctuation
    requires forall i :: 0 <= i < |tail| ==> tail[i] in TrailingPunctuation
    ensures TrimRight(w + tail, TrailingPunctuation) == w
    decreases |tail|
  {
    if |tail| == 0 {
      assert w + tail == w;
    } else {
      var s := w + tail;
      assert s[|s| - 1] == tail[|tail| - 1];
      assert s[..|s| - 1] == w + tail[..|tail| - 1];
      TrimTrailing(w, tail[..|tail| - 1]);
    }
  }

  /** `containsLowercaseCyrillic`: some rune of s is one the regex matches. */
  predicate ContainsLowercaseCyrillic(s: string, lower: char -> bool)
  {
    exists i :: 0 <= i < |s| && lower(s[i])
  }

  /** The lowercase letters of the basic Russian alphabet, а..я and ё; used
      below to show the filter at work on a concrete class of runes. */
  predicate RussianLowercase(c: char)
  {
    '\U{0430}' <= c <= '\U{044F}' || c == '\U{0451}'
  }

  // ---------------------------------------------------------------------------
  // extractEssentialWords
  // ---------------------------------------------------------------------------

  /** The two `strings.ReplaceAll` calls: every line break becomes a space. */
  function Unbreak(text: string): (r: string)
    ensures |r| == |text|
    ensures forall i :: 0 <= i < |text| ==> r[i] == (if text[i] == '\n' || text[i] == '\r' then ' ' else text[i])
  {
    ReplaceAll(ReplaceAll(text, '\n', ' '), '\r', ' ')
  }

  /** The replacements work rune by rune. */
  lemma UnbreakAppend(a: string, b: string)
    ensures Unbreak(a + b) == Unbreak(a) + Unbreak(b)
  {
  }

  /** The raw words of an inscription: line breaks become spaces, then the
      text is cut at every single space (so runs of spaces give empty words). */
  function RawWords(inscription: string): (words: seq<string>)
    ensures |words| >= 1
    ensures forall i :: 0 <= i < |words| ==> ' ' !in words[i]
  {
    Split(Unbreak(inscription), ' ')
  }

  /** The filter of `extractEssentialWords`: more than one rune, no
      lowercase Cyrillic letter. */
  predicate Keep(word: string, lower: char -> bool)
  {
    |word| > 1 && !ContainsLowercaseCyrillic(word, lower)
  }

  /** The cleaned words that pass the filter, in the order of the raw words. */
  function Select(raw: seq<string>, lower: char -> bool): (words: seq<string>)
    ensures |words| <= |raw|
    decreases |raw|
  {
    if |raw| == 0 then []
    else
      var w := CleanEssentialWord(raw[0]);
      (if Keep(w, lower) then [w] else []) + Select(raw[1..], lower)
  }

  /** What `extractEssentialWords` returns for an inscription. */
  function EssentialWords(inscription: string, lower: char -> bool): seq<string>
  {
    Select(RawWords(inscription), lower)
  }

  /** `extractEssentialWords`: the loop over the raw words, appending each
      cleaned word that passes the filter. */
  method ExtractEssentialWords(inscription: string, lower: char -> bool) returns (words: seq<string>)
    ensures words == EssentialWords(inscription, lower)
  {
    var raw := RawWords(inscription);
    words := [];
    for i := 0 to |raw|
      invariant words == Select(raw[..i], lower)
    {
      var w := CleanEssentialWord(raw[i]);
      SelectSnoc(raw, i, lower);
      if Keep(w, lower) {
        words := words + [w];
      }
    }
    assert raw[..|raw|] == raw;
  }

  /** Selection works word by word: the words of a concatenation are the
      words of each part, so order and duplicates are kept. */
  lemma {:induction false} SelectAppend(a: seq<string>, b: seq<string>, lower: char -> bool)
    ensures Select(a + b, lower) == Select(a, lower) + Select(b, lower)
    decreases |a|
  {
    if |a| > 0 {
      var w := CleanEssentialWord(a[0]);
      var head := if Keep(w, lower) then [w] else [];
      assert (a + b)[0] == a[0] && (a + b)[1..] == a[1..] + b;
      SelectAppend(a[1..], b, lower);
      calc {
        Select(a + b, lower);
        head + Select(a[1..] + b, lower);
        head + (Select(a[1..], lower) + Select(b, lower));
        (head + Select(a[1..], lower)) + Select(b, lower);
        Select(a, lower) + Select(b, lower);
      }
    } else {
      assert a + b == b;
    }
  }

  /** The selection of one more raw word. */
  lemma SelectSnoc(raw: seq<string>, i: nat, lower: char -> bool)
    requires i < |raw|
    ensures var w := CleanEssentialWord(raw[i]);
            Select(raw[..i + 1], lower) == Select(raw[..i], lower) + (if Keep(w, lower) then [w] else [])
  {
    assert raw[..i + 1] == raw[..i] + [raw[i]];
    SelectAppend(raw[..i], [raw[i]], lower);
  }

  /** Every extracted word passed the filter, is its own cleaning and holds
      neither a space, a line break nor a quote; so empty words never come out. */
  lemma {:induction false} SelectedWordsAreClean(raw: seq<string>, lower: char -> bool)
    requires forall i :: 0 <= i < |raw| ==> ' ' !in raw[i] && '\n' !in raw[i] && '\r' !in raw[i]
    ensures forall i :: 0 <= i < |Select(raw, lower)| ==>
              var w := Select(raw, lower)[i];
              && Keep(w, lower)
              && CleanEssentialWord(w) == w
              && ' ' !in w && '\n' !in w && '\r' !in w && '"' !in w
    decreases |raw|
  {
    if |raw| > 0 {
      SelectedWordsAreClean(raw[1..], lower);
      var w := CleanEssentialWord(raw[0]);
      CleanIdempotent(raw[0]);
      assert forall x :: x in w ==> x in raw[0] by {
        assert forall x :: x in w ==> x in RemoveAll(raw[0], '"');
      }
    }
  }

  /** No line break survives the replacements. */
  lemma NoLineBreaks(inscription: string)
    ensures forall i :: 0 <= i < |RawWords(inscription)| ==>
              '\n' !in RawWords(inscription)[i] && '\r' !in RawWords(inscription)[i]
  {
    var text := Unbreak(inscription);
    assert '\n' !in text && '\r' !in text;
    var raw := RawWords(inscription);
    forall i | 0 <= i < |raw| ensures '\n' !in raw[i] && '\r' !in raw[i] {
      SplitPiecesWithin(text, ' ', i);
    }
  }

  /** Every piece of a split is made of runes of the split text. */
  lemma {:induction false} SplitPiecesWithin(s: string, sep: char, i: nat)
    requires i < |Split(s, sep)|
    ensures forall x :: x in Split(s, sep)[i] ==> x in s
    decreases |s|
  {
    JoinSplit(s, sep);
    JoinHolds(Split(s, sep), [sep], i);
  }

  /** Each part of a joined list occurs inside the joined text. */
  lemma {:induction false} JoinHolds(parts: seq<string>, sep: string, i: nat)
    requires i < |parts|
    ensures forall x :: x in parts[i] ==> x in Join(parts, sep)
    decreases |parts|
  {
    if |parts| > 1 {
      if i == 0 {
        assert Join(parts, sep) == parts[0] + (sep + Join(parts[1..], sep));
      } else {
        JoinHolds(parts[1..], sep, i - 1);
        assert Join(parts, sep) == parts[0] + sep + Join(parts[1..], sep);
      }
    }
  }

  /** Every word `extractEssentialWords` returns is a clean, kept word with
      no space, line break or quote in it. */
  lemma EssentialWordsAreClean(inscription: string, lower: char -> bool)
    ensures forall i :: 0 <= i < |EssentialWords(inscription, lower)| ==>
              var w := EssentialWords(inscription, lower)[i];
              && |w| > 1 && !ContainsLowercaseCyrillic(w, lower)
              && CleanEssentialWord(w) == w
              && ' ' !in w && '\n' !in w && '\r' !in w && '"' !in w
  {
    NoLineBreaks(inscription);
    SelectedWordsAreClean(RawWords(inscription), lower);
  }

  /** A line break separates words exactly as a space does. */
  lemma LineBreaksAreSpaces(a: string, b: string, lower: char -> bool)
    ensures EssentialWords(a + "\n" + b, lower) == EssentialWords(a + " " + b, lower)
    ensures EssentialWords(a + "\r" + b, lower) == EssentialWords(a + " " + b, lower)
  {
    UnbreakAppend(a + "\n", b);
    UnbreakAppend(a + "\r", b);
    UnbreakAppend(a + " ", b);
    UnbreakAppend(a, "\n");
    UnbreakAppend(a, "\r");
    UnbreakAppend(a, " ");
    assert Unbreak("\n") == " " && Unbreak("\r") == " " && Unbreak(" ") == " ";
  }

  /** Text without line breaks is left alone by the replacements. */
  lemma UnbreakAbsent(text: string)
    requires '\n' !in text && '\r' !in text
    ensures Unbreak(text) == text
  {
  }

  /** The words of text separated by a space are the words of each side. */
  lemma SpacesSeparate(a: string, b: string, lower: char -> bool)
    requires ' ' !in a && '\n' !in a && '\r' !in a
    ensures EssentialWords(a + " " + b, lower) == EssentialWords(a, lower) + EssentialWords(b, lower)
  {
    var b' := Unbreak(b);
    UnbreakAbsent(a);
    UnbreakAppend(a + " ", b);
    UnbreakAppend(a, " ");
    assert Unbreak(a + " " + b) == a + [' '] + b';
    SplitAfterPiece(a, ' ', b');
    SplitNoSeparator(a, ' ');
    assert RawWords(a + " " + b) == RawWords(a) + RawWords(b);
    SelectAppend(RawWords(a), RawWords(b), lower);
  }

  /** A leading space only adds an empty word, which is dropped; so runs of
      spaces separate words as one space does. */
  lemma LeadingSpaceDropped(b: string, lower: char -> bool)
    ensures EssentialWords(" " + b, lower) == EssentialWords(b, lower)
  {
    var b' := Unbreak(b);
    UnbreakAppend(" ", b);
    assert Unbreak(" " + b) == "" + [' '] + b';
    SplitAfterPiece("", ' ', b');
    assert RawWords(" " + b) == [""] + RawWords(b);
    SelectAppend([""], RawWords(b), lower);
  }

  /** A clean word of more than one rune with no rune of the class is kept as is. */
  lemma KeptAsIs(w: string, lower: char -> bool)
    requires '"' !in w && |w| > 1 && w[|w| - 1] !in TrailingPunctuation
    requires forall i :: 0 <= i < |w| ==> !lower(w[i])
    ensures Select([w], lower) == [w]
  {
    CleanFixedPoint(w);
  }

  /** A clean word with a rune of the class anywhere in it is dropped. */
  lemma DroppedForLowercase(w: string, lower: char -> bool)
    requires '"' !in w && |w| > 0 && w[|w| - 1] !in TrailingPunctuation
    requires exists i :: 0 <= i < |w| && lower(w[i])
    ensures Select([w], lower) == []
  {
    CleanFixedPoint(w);
    assert ContainsLowercaseCyrillic(w, lower);
  }

  /** A single word: no space and no line break. */
  predicate SingleToken(w: string)
  {
    ' ' !in w && '\n' !in w && '\r' !in w
  }

  lemma ExampleUpper(w: string)
    requires w == "ПРИВЕТ"
    ensures SingleToken(w) && Select([w], RussianLowercase) == [w]
  {
    KeptAsIs(w, RussianLowercase);
  }

  /** Latin letters are not Cyrillic, lowercase or not. */
  lemma ExampleLatin(w: string)
    requires w == "mir"
    ensures SingleToken(w) && Select([w], RussianLowercase) == [w]
  {
    KeptAsIs(w, RussianLowercase);
  }

  lemma ExampleMixedCase(w: string)
    requires w == "Hello"
    ensures SingleToken(w) && Select([w], RussianLowercase) == [w]
  {
    KeptAsIs(w, RussianLowercase);
  }

  lemma ExampleLower(w: string)
    requires w == "мир"
    ensures SingleToken(w) && Select([w], RussianLowercase) == []
  {
    assert RussianLowercase(w[0]);
    DroppedForLowercase(w, RussianLowercase);
  }

  /** A lowercase tail after upper-case letters still drops the word. */
  lemma ExampleLowerTail(w: string)
    requires w == "ПРИВЕТмир"
    ensures Select([w], RussianLowercase) == []
  {
    assert RussianLowercase(w[6]);
    DroppedForLowercase(w, RussianLowercase);
  }

  /** Text with no space and no line break is one raw word. */
  lemma SingleWord(w: string, lower: char -> bool)
    requires SingleToken(w)
    ensures EssentialWords(w, lower) == Select([w], lower)
  {
    UnbreakAbsent(w);
    SplitNoSeparator(w, ' ');
  }

  /** A word followed by a space: that word's selection, then the words of
      the rest. */
  lemma WordThenRest(w: string, rest: string, lower: char -> bool)
    requires SingleToken(w)
    ensures EssentialWords(w + " " + rest, lower) == Select([w], lower) + EssentialWords(rest, lower)
  {
    SpacesSeparate(w, rest, lower);
    SingleWord(w, lower);
  }

  /** Four single words separated by spaces, of which the first three are
      kept and the last dropped, give the first three in order. */
  lemma ThreeKeptOneDropped(a: string, b: string, c: string, d: string, lower: char -> bool)
    requires SingleToken(a) && SingleToken(b) && SingleToken(c) && SingleToken(d)
    requires Select([a], lower) == [a] && Select([b], lower) == [b] && Select([c], lower) == [c]
    requires Select([d], lower) == []
    ensures EssentialWords(a + " " + (b + " " + (c + " " + d)), lower) == [a, b, c]
  {
    WordThenRest(a, b + " " + (c + " " + d), lower);
    WordThenRest(b, c + " " + d, lower);
    WordThenRest(c, d, lower);
    SingleWord(d, lower);
  }

  /** The whole sentence: the upper-case and Latin words are kept in order,
      the lowercase Cyrillic one is dropped. */
  lemma ExampleSentence(a: string, b: string, c: string, d: string)
    requires a == "ПРИВЕТ" && b == "mir" && c == "Hello" && d == "мир"
    ensures EssentialWords(a + " " + (b + " " + (c + " " + d)), RussianLowercase) == [a, b, c]
  {
    ExampleUpper(a);
    ExampleLatin(b);
    ExampleMixedCase(c);
    ExampleLower(d);
    ThreeKeptOneDropped(a, b, c, d, RussianLowercase);
  }

  // ---------------------------------------------------------------------------
  // The counting loop of UpdateEssentialsByDate
  // ---------------------------------------------------------------------------

  /** The extracted words of all inscriptions, one inscription after the other. */
  function AllWords(inscriptions: seq<string>, lower: char -> bool): seq<string>
    decreases |inscriptions|
  {
    if |inscriptions| == 0 then []
    else AllWords(inscriptions[..|inscriptions| - 1], lower) + EssentialWords(inscriptions[|inscriptions| - 1], lower)
  }

  /** `essentialWordsCount[word]++` over the words in order, starting from
      the empty map (a missing key reads as 0). */
  function Counts(words: seq<string>): map<string, nat>
    decreases |words|
  {
    if |words| == 0 then map[]
    else
      var m := Counts(words[..|words| - 1]);
      var w := words[|words| - 1];
      m[w := (if w in m then m[w] else 0) + 1]
  }

  /** One more word adds one to its count. */
  lemma CountsSnoc(words: seq<string>, w: string)
    ensures Counts(words + [w]) == Counts(words)[w := (if w in Counts(words) then Counts(words)[w] else 0) + 1]
  {
    assert (words + [w])[..|words|] == words;
  }

  /** The inner loop's step: the next word of the inscription is counted. */
  lemma CountsStep(before: seq<string>, words: seq<string>, j: nat)
    requires j < |words|
    ensures Counts(before + words[..j + 1])
         == Counts(before + words[..j])[words[j] := (if words[j] in Counts(before + words[..j]) then Counts(before + words[..j])[words[j]] else 0) + 1]
  {
    assert before + words[..j + 1] == (before + words[..j]) + [words[j]];
    CountsSnoc(before + words[..j], words[j]);
  }

  /** The keys are exactly the words, and each count is the number of times
      its word occurs. */
  lemma {:induction false} CountsOccurrences(words: seq<string>)
    ensures forall w :: w in Counts(words) <==> w in words
    ensures forall w :: w in Counts(words) ==> Counts(words)[w] == multiset(words)[w]
    decreases |words|
  {
    if |words| > 0 {
      var front := words[..|words| - 1];
      CountsOccurrences(front);
      assert words == front + [words[|words| - 1]];
    }
  }

  /** Some element of a non-empty set. */
  ghost function Pick(s: set<string>): (k: string)
    requires s != {}
    ensures k in s
  {
    var k :| k in s; k
  }

  /** The sum of the values of a count map. */
  ghost function MapSum(m: map<string, nat>): nat
    decreases |m|
  {
    if |m| == 0 then 0
    else
      var k := Pick(m.Keys);
      m[k] + MapSum(m - {k})
  }

  /** Taking a key out leaves one entry fewer. */
  lemma MapRemoveShrinks(m: map<string, nat>, k: string)
    requires k in m
    ensures |m - {k}| == |m| - 1
  {
    assert (m - {k}).Keys == m.Keys - {k};
  }

  /** The sum does not depend on which key is taken out first. */
  lemma {:induction false} MapSumRemove(m: map<string, nat>, k: string)
    requires k in m
    ensures MapSum(m) == m[k] + MapSum(m - {k})
    decreases |m|
  {
    var j := Pick(m.Keys);
    if j != k {
      var mj, mk := m - {j}, m - {k};
      MapRemoveShrinks(m, j);
      MapRemoveShrinks(m, k);
      assert mj - {k} == mk - {j};
      MapSumRemove(mj, k);
      MapSumRemove(mk, j);
    }
  }

  /** The counts add up to the number of extracted words. */
  lemma {:induction false} CountsTotal(words: seq<string>)
    ensures MapSum(Counts(words)) == |words|
    decreases |words|
  {
    if |words| > 0 {
      var front := words[..|words| - 1];
      var m := Counts(front);
      var w := words[|words| - 1];
      CountsTotal(front);
      var m' := Counts(words);
      MapSumRemove(m', w);
      if w in m {
        MapSumRemove(m, w);
        assert m' - {w} == m - {w};
      } else {
        assert m' - {w} == m;
      }
    }
  }

  /** The inner loop of `UpdateEssentialsByDate`: the words of one
      inscription increment their counts, on top of the counts of the words
      before them. */
  method CountWords(counts: map<string, nat>, ghost before: seq<string>, words: seq<string>) returns (counts': map<string, nat>)
    requires counts == Counts(before)
    ensures counts' == Counts(before + words)
  {
    counts' := counts;
    assert before + words[..0] == before;
    for j := 0 to |words|
      invariant counts' == Counts(before + words[..j])
    {
      CountsStep(before, words, j);
      counts' := counts'[words[j] := (if words[j] in counts' then counts'[words[j]] else 0) + 1];
    }
    assert words[..|words|] == words;
  }

  /** The nested loops of `UpdateEssentialsByDate`: every extracted word of
      every inscription increments its count. */
  method CountEssentialWords(inscriptions: seq<string>, lower: char -> bool) returns (counts: map<string, nat>)
    ensures counts == Counts(AllWords(inscriptions, lower))
  {
    counts := map[];
    for i := 0 to |inscriptions|
      invariant counts == Counts(AllWords(inscriptions[..i], lower))
    {
      var words := ExtractEssentialWords(inscriptions[i], lower);
      counts := CountWords(counts, AllWords(inscriptions[..i], lower), words);
      assert inscriptions[..i + 1][..i] == inscriptions[..i];
    }
    assert inscriptions[..|inscriptions|] == inscriptions;
  }

  /** `UpdateEssentialsByDate`, with the words of the stored inscriptions of
      the date given as the outcome of `GetInscriptionsByDate`: a failed
      fetch returns its error before anything is written; otherwise the
      counts replace the stored words of that date and of no other. The map
      stored is a function of the inscriptions alone. */
  method UpdateEssentialsByDate(store: Store, date: string, fetched: Result<seq<string>, Error>, lower: char -> bool)
    returns (err: Option<Error>)
    modifies store
    ensures fetched.Err? ==> err == Some(fetched.error) && store.words == old(store.words)
    ensures fetched.Ok? ==> err.None? && store.words == old(store.words)[date := Counts(AllWords(fetched.value, lower))]
    ensures store.hashes == old(store.hashes) && store.data == old(store.data)
  {
    if fetched.Err? {
      return Some(fetched.error);
    }
    var counts := CountEssentialWords(fetched.value, lower);
    store.UpdateWords(date, counts);
    return None;
  }
}

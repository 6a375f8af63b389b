/** Splitting a key into words and matching the words against the sensitive ones
    (src/interceptors/sanitizer.rs:30-110), on ASCII keys. */
module Tokens {

  predicate IsUpper(c: char) { 'A' <= c <= 'Z' }
  predicate IsLetter(c: char) { 'a' <= c <= 'z' }
  predicate IsSeparator(c: char) { c == '_' || c == '-' || c == '.' || c == ' ' }

  function Lower(c: char): char { if IsUpper(c) then c + ' ' else c }
  function Upper(c: char): char { if IsLetter(c) then c - ' ' else c }

  function Lowered(s: string): string { seq(|s|, i requires 0 <= i < |s| => Lower(s[i])) }

  function Without(s: string, drop: char -> bool): string {
    if s == "" then ""
    else Without(s[..|s| - 1], drop) + (if drop(s[|s| - 1]) then "" else [s[|s| - 1]])
  }

  function Flatten(tokens: seq<string>): string {
    if tokens == [] then "" else Flatten(tokens[..|tokens| - 1]) + tokens[|tokens| - 1]
  }

  // ---------------------------------------------------------------- where words start

  /** How a prefix of a key ends: between words, in a word's small letters, or on a capital. */
  datatype End = Gap | Small | Capital

  datatype Prefix = Prefix(words: seq<string>, end: End)

  function ExtendLast(tokens: seq<string>, s: string): seq<string> {
    if tokens == [] then [s] else tokens[..|tokens| - 1] + [tokens[|tokens| - 1] + s]
  }

  /** A word starts after a gap, and at a capital that does not follow another one. */
  function Next(p: Prefix, c: char): Prefix {
    if IsSeparator(c) then p.(end := Gap)
    else if p.end.Gap? || (IsUpper(c) && !p.end.Capital?) then Prefix(p.words + [[Lower(c)]], if IsUpper(c) then Capital else Small)
    else Prefix(ExtendLast(p.words, [Lower(c)]), if IsUpper(c) then Capital else Small)
  }

  function Feed(p: Prefix, key: string): Prefix {
    if key == "" then p else Next(Feed(p, key[..|key| - 1]), key[|key| - 1])
  }

  const START := Prefix([], Gap)

  /** The words of a key, in lower case. */
  function Words(key: string): seq<string> { Feed(START, key).words }

  /** The scan's variables: finished words, the word under way, and whether the last character was
      neither a separator nor a capital. */
  ghost predicate Scanned(p: Prefix, tokens: seq<string>, current: string, prevIsLower: bool) {
    && p.words == tokens + (if current == "" then [] else [Lowered(current)])
    && (current == "" <==> p.end.Gap?)
    && (prevIsLower <==> p.end.Small?)
  }

  lemma ScanStep(p: Prefix, tokens: seq<string>, current: string, prevIsLower: bool, ch: char)
    requires Scanned(p, tokens, current, prevIsLower)
    ensures var closed := tokens + if current == "" then [] else [Lowered(current)];
            if IsSeparator(ch) then Scanned(Next(p, ch), closed, "", false)
            else if IsUpper(ch) && prevIsLower then Scanned(Next(p, ch), closed, [ch], false)
            else Scanned(Next(p, ch), tokens, current + [ch], !IsUpper(ch))
  {
    LoweredAppends(current, [ch]);
    assert Lowered([ch]) == [Lower(ch)];
    assert "" + [ch] == [ch];
  }

  method SplitKeyTokens(key: string) returns (tokens: seq<string>)
    ensures tokens == Words(key)
  {
    tokens := [];
    var current, prevIsLower := "", false;
    for i := 0 to |key|
      invariant Scanned(Feed(START, key[..i]), tokens, current, prevIsLower)
    {
      var ch := key[i];
      ScanStep(Feed(START, key[..i]), tokens, current, prevIsLower, ch);
      assert key[..i + 1][..i] == key[..i];
      assert tokens + [] == tokens && "" + [ch] == [ch];
      if IsSeparator(ch) {
        if current != "" {
          tokens := tokens + [Lowered(current)];
          current := "";
        }
        prevIsLower := false;
      } else if IsUpper(ch) {
        if prevIsLower && current != "" {
          tokens := tokens + [Lowered(current)];
          current := "";
        }
        current := current + [ch];
        prevIsLower := false;
      } else {
        current := current + [ch];
        prevIsLower := true;
      }
    }
    assert key[..|key|] == key;
    if current != "" { tokens := tokens + [Lowered(current)]; }
  }

  lemma LoweredAppends(a: string, b: string)
    ensures Lowered(a + b) == Lowered(a) + Lowered(b)
  {}

  // ---------------------------------------------------------------- what the words are

  predicate PlainChar(c: char) { !IsSeparator(c) && !IsUpper(c) }

  ghost predicate Plain(word: string) { word != "" && forall i :: 0 <= i < |word| ==> PlainChar(word[i]) }

  ghost predicate AllPlain(words: seq<string>) { forall i :: 0 <= i < |words| ==> Plain(words[i]) }

  lemma FlattenAppends(tokens: seq<string>, token: string)
    ensures Flatten(tokens + [token]) == Flatten(tokens) + token
  {
    assert (tokens + [token])[..|tokens|] == tokens;
  }

  lemma FlattenExtendsLast(tokens: seq<string>, s: string)
    requires tokens != []
    ensures Flatten(ExtendLast(tokens, s)) == Flatten(tokens) + s
  {
    var init, last := tokens[..|tokens| - 1], tokens[|tokens| - 1];
    FlattenAppends(init, last + s);
    assert Flatten(init) + (last + s) == (Flatten(init) + last) + s;
  }

  ghost predicate Spells(p: Prefix, kept: string) {
    AllPlain(p.words) && Flatten(p.words) == Lowered(kept) && (p.words == [] ==> p.end.Gap?)
  }

  lemma OneLower(kept: string, c: char)
    ensures Lowered(kept + [c]) == Lowered(kept) + [Lower(c)]
  {}

  lemma LowerIsPlain(c: char)
    ensures !IsSeparator(c) ==> PlainChar(Lower(c))
  {}

  lemma NewWordIsPlain(words: seq<string>, c: char)
    requires AllPlain(words) && PlainChar(c)
    ensures AllPlain(words + [[c]])
  {
    assert Plain([c]);
  }

  lemma NewWordSpells(words: seq<string>, kept: string, c: char)
    requires AllPlain(words) && Flatten(words) == Lowered(kept) && !IsSeparator(c)
    ensures AllPlain(words + [[Lower(c)]]) && Flatten(words + [[Lower(c)]]) == Lowered(kept + [c])
  {
    OneLower(kept, c);
    LowerIsPlain(c);
    var d := Lower(c);
    FlattenAppends(words, [d]);
    NewWordIsPlain(words, d);
  }

  lemma LongerWordIsPlain(words: seq<string>, c: char)
    requires words != [] && AllPlain(words) && PlainChar(c)
    ensures AllPlain(ExtendLast(words, [c]))
  {
    var last := words[|words| - 1];
    assert Plain(last);
    assert Plain(last + [c]);
  }

  lemma LongerWordSpells(words: seq<string>, kept: string, c: char)
    requires words != [] && AllPlain(words) && Flatten(words) == Lowered(kept) && !IsSeparator(c)
    ensures AllPlain(ExtendLast(words, [Lower(c)])) && Flatten(ExtendLast(words, [Lower(c)])) == Lowered(kept + [c])
  {
    OneLower(kept, c);
    LowerIsPlain(c);
    var d := Lower(c);
    FlattenExtendsLast(words, [d]);
    LongerWordIsPlain(words, d);
  }

  lemma SpellStep(p: Prefix, kept: string, c: char)
    requires Spells(p, kept)
    ensures Spells(Next(p, c), kept + if IsSeparator(c) then "" else [c])
  {
    if IsSeparator(c) {
      assert kept + "" == kept;
    } else {
      NewWordSpells(p.words, kept, c);
      if p.words != [] { LongerWordSpells(p.words, kept, c); }
    }
  }

  lemma {:induction false} FeedSpells(key: string)
    ensures Spells(Feed(START, key), Without(key, IsSeparator))
  {
    if key != "" {
      FeedSpells(key[..|key| - 1]);
      SpellStep(Feed(START, key[..|key| - 1]), Without(key[..|key| - 1], IsSeparator), key[|key| - 1]);
    }
  }

  /** The words are non-empty and free of separators and capitals, and side by side they spell the
      key in lower case without its separators: nothing is lost, nothing is invented. */
  lemma WordsSpellKey(key: string)
    ensures AllPlain(Words(key))
    ensures Flatten(Words(key)) == Lowered(Without(key, IsSeparator))
  {
    FeedSpells(key);
  }

  predicate IsGap(c: char) { c in ['_', '-', '.', ' '] }

  /** A word starts at a character that is no separator, and is first, or follows a separator, or is a
      capital that follows anything but another capital. */
  predicate StartsAt(key: string, i: int)
    requires 0 <= i < |key|
  {
    !IsGap(key[i]) && (i == 0 || IsGap(key[i - 1]) || ('A' <= key[i] <= 'Z' && !('A' <= key[i - 1] <= 'Z')))
  }

  function Starts(key: string): set<int> { set i | 0 <= i < |key| && StartsAt(key, i) }

  lemma StartsOneMore(init: string, c: char)
    ensures var key := init + [c];
            Starts(key) == Starts(init) + if StartsAt(key, |init|) then {|init|} else {}
  {
    var key := init + [c];
    assert forall i :: 0 <= i < |init| ==> key[i] == init[i];
    assert forall i :: 0 <= i < |init| ==> (StartsAt(key, i) <==> StartsAt(init, i));
    assert key[|init|] == c;
  }

  ghost predicate EndsAs(key: string, end: End) {
    && (end.Gap? <==> key == "" || IsGap(key[|key| - 1]))
    && (end.Capital? <==> key != "" && 'A' <= key[|key| - 1] <= 'Z')
  }

  lemma StartsAreWords(p: Prefix, init: string, c: char)
    requires EndsAs(init, p.end) && (p.words == [] ==> p.end.Gap?)
    ensures EndsAs(init + [c], Next(p, c).end)
    ensures |Next(p, c).words| == |p.words| + if StartsAt(init + [c], |init|) then 1 else 0
  {
    assert IsSeparator(c) <==> IsGap(c);
    assert (init + [c])[|init|] == c;
    assert init != "" ==> (init + [c])[|init| - 1] == init[|init| - 1];
  }

  /** There are as many words as places where one starts; with what the words spell, that fixes them. */
  lemma {:induction false} WordsAreStarts(key: string)
    ensures |Words(key)| == |Starts(key)| && EndsAs(key, Feed(START, key).end)
  {
    if key == "" {
      assert Starts(key) == {};
    } else {
      var init, c := key[..|key| - 1], key[|key| - 1];
      WordsAreStarts(init);
      FeedSpells(init);
      StartsAreWords(Feed(START, init), init, c);
      StartsOneMore(init, c);
      assert init + [c] == key;
      assert |init| !in Starts(init);
    }
  }

  // ---------------------------------------------------------------- round trips

  lemma {:induction false} FeedAppends(p: Prefix, a: string, b: string)
    ensures Feed(p, a + b) == Feed(Feed(p, a), b)
  {
    if b == "" {
      assert a + b == a;
    } else {
      assert (a + b)[..|a + b| - 1] == a + b[..|b| - 1];
      FeedAppends(p, a, b[..|b| - 1]);
    }
  }

  /** Small letters after an open word belong to it. */
  lemma {:induction false} PlainExtends(p: Prefix, rest: string)
    requires p.words != [] && !p.end.Gap?
    requires forall i :: 0 <= i < |rest| ==> PlainChar(rest[i])
    ensures Feed(p, rest) == if rest == "" then p else Prefix(ExtendLast(p.words, rest), Small)
  {
    if rest != "" {
      var init, c := rest[..|rest| - 1], rest[|rest| - 1];
      PlainExtends(p, init);
      var last := p.words[|p.words| - 1];
      assert last + (init + [c]) == (last + init) + [c];
      assert init + [c] == rest;
    }
  }

  lemma FeedOne(p: Prefix, c: char)
    ensures Feed(p, [c]) == Next(p, c)
  {
    assert [c][..0] == "";
  }

  lemma ExtendLastTwice(words: seq<string>, a: string, b: string)
    ensures words != [] ==> ExtendLast(ExtendLast(words, a), b) == ExtendLast(words, a + b)
    ensures ExtendLast(words + [a], b) == words + [a + b]
    ensures a + "" == a
  {
    if words != [] {
      var last := words[|words| - 1];
      assert (last + a) + b == last + (a + b);
    }
  }

  /** A first letter and the small letters after it, beginning a word or going on with one. */
  function AfterWord(p: Prefix, first: char, rest: string): Prefix {
    var word := [Lower(first)] + rest;
    Prefix(if p.end.Gap? || (IsUpper(first) && !p.end.Capital?) then p.words + [word] else ExtendLast(p.words, word),
           if rest == "" && IsUpper(first) then Capital else Small)
  }

  lemma NextBeginsWord(p: Prefix, first: char, rest: string)
    requires !IsSeparator(first) && (p.words == [] ==> p.end.Gap?)
    ensures var q := Next(p, first);
            && q.words != [] && !q.end.Gap?
            && (rest != "" ==> Prefix(ExtendLast(q.words, rest), Small) == AfterWord(p, first, rest))
            && (rest == "" ==> q == AfterWord(p, first, rest))
  {
    ExtendLastTwice(p.words, [Lower(first)], rest);
  }

  lemma WordFeeds(p: Prefix, first: char, rest: string)
    requires !IsSeparator(first) && (p.words == [] ==> p.end.Gap?)
    requires forall i :: 0 <= i < |rest| ==> PlainChar(rest[i])
    ensures Feed(p, [first] + rest) == AfterWord(p, first, rest)
  {
    FeedAppends(p, [first], rest);
    FeedOne(p, first);
    NextBeginsWord(p, first, rest);
    PlainExtends(Next(p, first), rest);
  }

  function Joined(words: seq<string>, sep: char): string {
    if words == [] then ""
    else if |words| == 1 then words[0]
    else Joined(words[..|words| - 1], sep) + [sep] + words[|words| - 1]
  }

  lemma PlainWordFeeds(p: Prefix, word: string)
    requires Plain(word) && p.end.Gap?
    ensures Feed(p, word) == Prefix(p.words + [word], Small)
  {
    assert PlainChar(word[0]);
    WordFeeds(p, word[0], word[1..]);
    assert [word[0]] + word[1..] == word;
  }

  /** Snake case, kebab case and the other separated spellings split into the words they were made of. */
  lemma {:induction false} SeparatedRoundTrip(words: seq<string>, sep: char)
    requires IsSeparator(sep) && AllPlain(words)
    ensures Words(Joined(words, sep)) == words
  {
    if |words| == 1 {
      PlainWordFeeds(START, words[0]);
    } else if |words| > 1 {
      var n := |words| - 1;
      SeparatedRoundTrip(words[..n], sep);
      var init := Joined(words[..n], sep);
      assert (init + [sep])[..|init|] == init;
      FeedAppends(START, init + [sep], words[n]);
      PlainWordFeeds(Feed(START, init + [sep]), words[n]);
      assert words[..n] + [words[n]] == words;
    }
  }

  ghost predicate Letters(word: string) { word != "" && forall i :: 0 <= i < |word| ==> IsLetter(word[i]) }

  ghost predicate AllLetters(words: seq<string>) { forall i :: 0 <= i < |words| ==> Letters(words[i]) }

  function Capitalized(word: string): string {
    if word == "" then "" else [Upper(word[0])] + word[1..]
  }

  function Camel(words: seq<string>): string {
    if words == [] then ""
    else if |words| == 1 then words[0]
    else Camel(words[..|words| - 1]) + Capitalized(words[|words| - 1])
  }

  /** What camel case can tell apart: a one-letter word after the first leaves its capital next to that
      of its successor, and the two are read as one. */
  function Glued(words: seq<string>): seq<string> {
    if |words| <= 1 then words
    else
      var n := |words| - 1;
      if n >= 2 && |words[n - 1]| <= 1 then ExtendLast(Glued(words[..n]), words[n]) else Glued(words[..n]) + [words[n]]
  }

  lemma CapitalizedFeeds(p: Prefix, word: string)
    requires Letters(word) && p.words != [] && !p.end.Gap?
    ensures Feed(p, Capitalized(word)) == Prefix(
              if p.end.Capital? then ExtendLast(p.words, word) else p.words + [word],
              if |word| == 1 then Capital else Small)
  {
    assert IsLetter(word[0]);
    assert forall i :: 0 <= i < |word[1..]| ==> IsLetter(word[1..][i]);
    WordFeeds(p, Upper(word[0]), word[1..]);
    assert Lower(Upper(word[0])) == word[0];
    assert [word[0]] + word[1..] == word;
  }

  function CamelEnd(words: seq<string>): End {
    if |words| >= 2 && |words[|words| - 1]| == 1 then Capital else Small
  }

  lemma InitOfLetters(words: seq<string>, init: seq<string>)
    requires AllLetters(words) && |words| >= 2 && init == words[..|words| - 1]
    ensures AllLetters(init) && init != [] && init[|init| - 1] != "" && words == init + [words[|words| - 1]]
  {
    assert forall i :: 0 <= i < |init| ==> init[i] == words[i];
    assert Letters(words[|init| - 1]);
  }

  lemma {:induction false} CamelFeeds(words: seq<string>)
    requires words != [] && AllLetters(words)
    ensures Feed(START, Camel(words)) == Prefix(Glued(words), CamelEnd(words)) && Glued(words) != []
  {
    assert Letters(words[|words| - 1]);
    if |words| == 1 {
      PlainWordFeeds(START, words[0]);
    } else {
      var init, last := words[..|words| - 1], words[|words| - 1];
      InitOfLetters(words, init);
      CamelFeeds(init);
      CamelStep(words, init, last);
    }
  }

  lemma CamelAppends(words: seq<string>, init: seq<string>, last: string)
    requires init != [] && words == init + [last]
    ensures Camel(words) == Camel(init) + Capitalized(last)
  {
    assert words[..|words| - 1] == init && words[|words| - 1] == last;
  }

  lemma GluedAppends(words: seq<string>, init: seq<string>, last: string)
    requires init != [] && words == init + [last] && init[|init| - 1] != ""
    ensures Glued(words) == if CamelEnd(init).Capital? then ExtendLast(Glued(init), last) else Glued(init) + [last]
  {
    assert words[..|words| - 1] == init && words[|words| - 1] == last;
    assert words[|words| - 2] == init[|init| - 1];
  }

  lemma CamelStep(words: seq<string>, init: seq<string>, last: string)
    requires init != [] && words == init + [last] && init[|init| - 1] != "" && Letters(last) && Glued(init) != []
    requires Feed(START, Camel(init)) == Prefix(Glued(init), CamelEnd(init))
    ensures Feed(START, Camel(words)) == Prefix(Glued(words), CamelEnd(words)) && Glued(words) != []
  {
    CamelAppends(words, init, last);
    GluedAppends(words, init, last);
    CapitalizedFeeds(Prefix(Glued(init), CamelEnd(init)), last);
    FeedAppends(START, Camel(init), Capitalized(last));
  }

  /** Every word between the first and the last has at least two letters. */
  ghost predicate MiddleWordsAreLong(words: seq<string>) {
    forall i :: 1 <= i < |words| - 1 ==> |words[i]| >= 2
  }

  lemma {:induction false} GluedKeepsIff(words: seq<string>)
    ensures |Glued(words)| <= |words| && (words != [] ==> Glued(words) != [])
    ensures MiddleWordsAreLong(words) ==> Glued(words) == words
    ensures !MiddleWordsAreLong(words) ==> |Glued(words)| < |words|
  {
    if |words| > 1 {
      var n := |words| - 1;
      GluedKeepsIff(words[..n]);
      MiddleWordsStep(words);
      assert words[..n] + [words[n]] == words;
    }
  }

  lemma MiddleWordsStep(words: seq<string>)
    requires |words| > 1
    ensures var n := |words| - 1;
            MiddleWordsAreLong(words) <==> MiddleWordsAreLong(words[..n]) && (n >= 2 ==> |words[n - 1]| >= 2)
  {
    var n := |words| - 1;
    var init := words[..n];
    forall i | MiddleWordsAreLong(words) && 1 <= i < |init| - 1 ensures |init[i]| >= 2 { assert init[i] == words[i]; }
    if MiddleWordsAreLong(init) && (n >= 2 ==> |words[n - 1]| >= 2) {
      forall i | 1 <= i < |words| - 1 ensures |words[i]| >= 2 { if i < n - 1 { assert init[i] == words[i]; } }
    }
  }

  /** Camel case splits into the words it was made of exactly when every middle word has two letters. */
  lemma CamelRoundTripIff(words: seq<string>)
    requires AllLetters(words)
    ensures Words(Camel(words)) == words <==> MiddleWordsAreLong(words)
  {
    if words != [] { CamelFeeds(words); }
    GluedKeepsIff(words);
  }

  // ---------------------------------------------------------------- sensitive keys

  predicate IsJoiner(c: char) { c == '-' || c == '_' }

  /** A configured key or a normalised one: in lower case, with dashes and underscores dropped. */
  function Normalized(key: string): string { Without(Lowered(key), IsJoiner) }

  const MAX_WINDOW: nat := 4

  ghost predicate MatchesWord(sensitive: set<string>, s: string) {
    exists k :: k in sensitive && Without(k, IsJoiner) == s
  }

  ghost predicate WindowMatches(sensitive: set<string>, words: seq<string>, i: int, j: int) {
    0 <= i < j <= |words| && j - i <= MAX_WINDOW && MatchesWord(sensitive, Flatten(words[i..j]))
  }

  ghost predicate SomeWindowMatches(sensitive: set<string>, words: seq<string>) {
    exists i, j :: WindowMatches(sensitive, words, i, j)
  }

  ghost predicate Sensitive(sensitive: set<string>, key: string) {
    MatchesWord(sensitive, Normalized(key)) || SomeWindowMatches(sensitive, Words(key))
  }

  lemma {:induction false} WithoutCommutes(key: string)
    requires forall i :: 0 <= i < |key| ==> key[i] != '.' && key[i] != ' '
    ensures Normalized(key) == Lowered(Without(key, IsSeparator))
  {
    if key != "" {
      var n := |key| - 1;
      WithoutCommutes(key[..n]);
      assert Lowered(key)[..n] == Lowered(key[..n]);
      LoweredAppends(Without(key[..n], IsSeparator), [key[n]]);
      assert Lowered([key[n]]) == [Lower(key[n])];
    }
  }

  lemma SensitiveByWindows(sensitive: set<string>, key: string)
    requires forall i :: 0 <= i < |key| ==> key[i] != '.' && key[i] != ' '
    ensures Sensitive(sensitive, key) <==>
              SomeWindowMatches(sensitive, Words(key)) || MatchesWord(sensitive, Flatten(Words(key)))
  {
    WithoutCommutes(key);
    WordsSpellKey(key);
  }

  /** A key without dots and blanks is sensitive exactly when one to four neighbouring words of it, or
      all of them, spell a sensitive word. */
  lemma SensitiveIffWordsSpellIt(sensitive: set<string>, key: string)
    requires forall i :: 0 <= i < |key| ==> key[i] != '.' && key[i] != ' '
    ensures Sensitive(sensitive, key) <==>
              || (exists i, j :: 0 <= i < j <= |Words(key)| && j <= i + 4 && MatchesWord(sensitive, Flatten(Words(key)[i..j])))
              || MatchesWord(sensitive, Flatten(Words(key)))
  {
    SensitiveByWindows(sensitive, key);
    if i, j :| 0 <= i < j <= |Words(key)| && j <= i + 4 && MatchesWord(sensitive, Flatten(Words(key)[i..j])) {
      assert WindowMatches(sensitive, Words(key), i, j);
    }
  }

  // ---------------------------------------------------------------- the words of the source

  const DEFAULT_SENSITIVE_KEYS: seq<string> :=
    ["password", "pass", "token", "secret", "apikey", "api_key", "creditcard", "credit_card", "cvv", "cvc", "ssn", "pin", "auth", "authorization"]

  /** The configured words: the defaults and the custom ones, in lower case. */
  method SensitiveKeys(customKeys: seq<string>) returns (sensitive: set<string>)
    ensures forall k :: k in sensitive <==> exists i :: 0 <= i < |DEFAULT_SENSITIVE_KEYS + customKeys| && k == Lowered((DEFAULT_SENSITIVE_KEYS + customKeys)[i])
  {
    var keys := DEFAULT_SENSITIVE_KEYS + customKeys;
    sensitive := {};
    for i := 0 to |keys|
      invariant forall k :: k in sensitive <==> exists j :: 0 <= j < i && k == Lowered(keys[j])
    {
      sensitive := sensitive + {Lowered(keys[i])};
    }
  }

  lemma {:induction false} NothingToDrop(s: string, drop: char -> bool)
    requires forall i :: 0 <= i < |s| ==> !drop(s[i])
    ensures Without(s, drop) == s
  {
    if s != "" {
      NothingToDrop(s[..|s| - 1], drop);
      assert s == s[..|s| - 1] + [s[|s| - 1]];
    }
  }

  /** A key that has up to four neighbouring words which together are a sensitive word, written without
      dashes and underscores, is sensitive. */
  lemma NeighboursAreCaught(sensitive: set<string>, key: string, i: nat, j: nat)
    requires i < j <= |Words(key)| && j <= i + 4 && Flatten(Words(key)[i..j]) in sensitive
    ensures Sensitive(sensitive, key)
  {
    var s := Flatten(Words(key)[i..j]);
    WordsSpellKey(key);
    FlattenIsPlain(Words(key)[i..j]);
    NothingToDrop(s, IsJoiner);
    assert WindowMatches(sensitive, Words(key), i, j);
  }

  lemma {:induction false} FlattenIsPlain(words: seq<string>)
    requires AllPlain(words)
    ensures forall k :: 0 <= k < |Flatten(words)| ==> !IsJoiner(Flatten(words)[k])
  {
    if words != [] {
      FlattenIsPlain(words[..|words| - 1]);
      assert Plain(words[|words| - 1]);
    }
  }

  lemma WordIsCaught(sensitive: set<string>, words: seq<string>, key: string, i: nat)
    requires Words(key) == words && i < |words| && words[i] in sensitive
    ensures Sensitive(sensitive, key)
  {
    FlattenOne(words[i]);
    assert words[i..i + 1] == [words[i]];
    NeighboursAreCaught(sensitive, key, i, i + 1);
  }

  /** The keys that the source names are caught. */
  lemma DocumentedKeysAreCaught(sensitive: set<string>)
    requires {"password", "token", "pin"} <= sensitive
    ensures Sensitive(sensitive, "user_password") && Sensitive(sensitive, "accessToken") && Sensitive(sensitive, "admin_pin")
  {
    SnakePair(sensitive, "user", "password");
    SnakePair(sensitive, "admin", "pin");
    assert "user" + ['_'] + "password" == "user_password" && "admin" + ['_'] + "pin" == "admin_pin";
    CamelPair();
    WordIsCaught(sensitive, ["access", "token"], "accessToken", 1);
  }

  lemma SnakePair(sensitive: set<string>, a: string, b: string)
    requires Plain(a) && Plain(b) && b in sensitive
    ensures Sensitive(sensitive, a + ['_'] + b)
  {
    SeparatedRoundTrip([a, b], '_');
    assert [a, b][..1] == [a];
    WordIsCaught(sensitive, [a, b], a + ['_'] + b, 1);
  }

  lemma CamelPair()
    ensures Words("accessToken") == ["access", "token"]
  {
    var words := ["access", "token"];
    assert words[..1] == ["access"];
    assert "access" + Capitalized("token") == "accessToken";
    CamelRoundTripIff(words);
  }

  /** However a key is spelled, its words decide whether it is sensitive. */
  lemma SpellingDoesNotMatter(sensitive: set<string>, words: seq<string>)
    requires AllLetters(words)
    requires MiddleWordsAreLong(words)
    ensures Sensitive(sensitive, Joined(words, '_')) <==> Sensitive(sensitive, Camel(words))
    ensures Sensitive(sensitive, Joined(words, '-')) <==> Sensitive(sensitive, Camel(words))
    ensures Sensitive(sensitive, Camel(words)) <==>
              SomeWindowMatches(sensitive, words) || MatchesWord(sensitive, Flatten(words))
  {
    CamelRoundTripIff(words);
    forall sep | sep in "_-"
      ensures Words(Joined(words, sep)) == words
      ensures forall i :: 0 <= i < |Joined(words, sep)| ==> Joined(words, sep)[i] != '.' && Joined(words, sep)[i] != ' '
    {
      assert forall i :: 0 <= i < |words| ==> Plain(words[i]);
      SeparatedRoundTrip(words, sep);
      JoinedHasNoDots(words, sep);
    }
    assert '_' in "_-" && '-' in "_-";
    CamelHasNoDots(words);
    SensitiveByWindows(sensitive, Joined(words, '_'));
    SensitiveByWindows(sensitive, Joined(words, '-'));
    SensitiveByWindows(sensitive, Camel(words));
  }

  lemma {:induction false} JoinedHasNoDots(words: seq<string>, sep: char)
    requires IsJoiner(sep)
    requires AllLetters(words)
    ensures forall i :: 0 <= i < |Joined(words, sep)| ==> Joined(words, sep)[i] != '.' && Joined(words, sep)[i] != ' '
  {
    if words != [] {
      assert Letters(words[|words| - 1]);
      if |words| > 1 { JoinedHasNoDots(words[..|words| - 1], sep); }
    }
  }

  lemma {:induction false} CamelHasNoDots(words: seq<string>)
    requires AllLetters(words)
    ensures forall i :: 0 <= i < |Camel(words)| ==> Camel(words)[i] != '.' && Camel(words)[i] != ' '
  {
    if words != [] {
      assert Letters(words[|words| - 1]);
      if |words| > 1 { CamelHasNoDots(words[..|words| - 1]); }
    }
  }

  method SpellsSensitiveWord(sensitive: set<string>, s: string) returns (found: bool)
    ensures found <==> MatchesWord(sensitive, s)
  {
    var rest := sensitive;
    while rest != {}
      invariant rest <= sensitive
      invariant forall k :: k in sensitive && k !in rest ==> Without(k, IsJoiner) != s
    {
      var k :| k in rest;
      if Without(k, IsJoiner) == s { return true; }
      rest := rest - {k};
    }
    return false;
  }

  lemma FlattenOne(token: string)
    ensures Flatten([token]) == token
  {
    assert [token][..0] == [];
    assert "" + token == token;
  }

  method TokenMatches(sensitive: set<string>, tokens: seq<string>) returns (found: bool)
    ensures found ==> SomeWindowMatches(sensitive, tokens)
  {
    for i := 0 to |tokens| {
      found := SpellsSensitiveWord(sensitive, tokens[i]);
      if found {
        FlattenOne(tokens[i]);
        assert tokens[i..i + 1] == [tokens[i]];
        assert WindowMatches(sensitive, tokens, i, i + 1);
        return;
      }
    }
    return false;
  }

  method WindowStartingAt(sensitive: set<string>, tokens: seq<string>, i: nat) returns (found: bool)
    requires i < |tokens|
    ensures found <==> exists j :: WindowMatches(sensitive, tokens, i, j)
  {
    var maxWindow := if |tokens| < MAX_WINDOW then |tokens| else MAX_WINDOW;
    var end := if i + maxWindow < |tokens| then i + maxWindow else |tokens|;
    for j := i + 1 to end + 1
      invariant forall b :: b < j ==> !WindowMatches(sensitive, tokens, i, b)
    {
      found := SpellsSensitiveWord(sensitive, Flatten(tokens[i..j]));
      if found {
        assert WindowMatches(sensitive, tokens, i, j);
        return;
      }
    }
    return false;
  }

  method IsSensitiveKey(sensitive: set<string>, key: string) returns (found: bool)
    ensures found <==> Sensitive(sensitive, key)
  {
    found := SpellsSensitiveWord(sensitive, Normalized(key));
    if found { return; }
    var tokens := SplitKeyTokens(key);
    found := TokenMatches(sensitive, tokens);
    if found { return; }
    for i := 0 to |tokens|
      invariant forall a, b :: WindowMatches(sensitive, tokens, a, b) ==> a >= i
    {
      found := WindowStartingAt(sensitive, tokens, i);
      if found { return; }
    }
    return false;
  }
}

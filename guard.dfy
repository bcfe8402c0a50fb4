/**
 * `_file_guard`: the include-guard stem a target path is turned into. The two
 * regular-expression substitutions it applies are written as the scans the
 * regex engine performs, and each is proved equal to a character-by-character
 * reference definition.
 */
module Guard {
  import opened Text

  /** The longest prefix of `s` made of upper-case letters. */
  function UpperRun(s: string): (w: string)
    ensures |w| <= |s| && w == s[..|w|]
    ensures forall c :: c in w ==> IsUpper(c)
    ensures |w| < |s| ==> !IsUpper(s[|w|])
  {
    if s == [] || !IsUpper(s[0]) then [] else [s[0]] + UpperRun(s[1..])
  }

  /** The longest prefix of `s` made of lower-case letters. */
  function LowerRun(s: string): (w: string)
    ensures |w| <= |s| && w == s[..|w|]
    ensures forall c :: c in w ==> IsLower(c)
  {
    if s == [] || !IsLower(s[0]) then [] else [s[0]] + LowerRun(s[1..])
  }

  /** `re.sub('([A-Z]+)', r' \1', s)`: each match is a maximal run of
      upper-case letters, replaced by a space and the run. */
  function SpaceUpperRuns(s: string): (r: string)
    ensures forall c :: c in r ==> c in s || c == ' '
    decreases |s|
  {
    if s == [] then []
    else if IsUpper(s[0]) then
      var run := UpperRun(s);
      " " + run + SpaceUpperRuns(s[|run|..])
    else [s[0]] + SpaceUpperRuns(s[1..])
  }

  /** `re.sub('([A-Z][a-z]+)', r' \1', s)`: each match is an upper-case letter
      and the run of lower-case letters after it, replaced by a space and the match. */
  function SpaceCapitalWords(s: string): (r: string)
    ensures forall c :: c in r ==> c in s || c == ' '
    decreases |s|
  {
    if s == [] then []
    else if |s| >= 2 && IsUpper(s[0]) && IsLower(s[1]) then
      var word := [s[0]] + LowerRun(s[1..]);
      assert word == s[..|word|];
      " " + word + SpaceCapitalWords(s[|word|..])
    else [s[0]] + SpaceCapitalWords(s[1..])
  }

  /** Reference: a space before every upper-case letter that does not follow one. */
  function MarkUpperRuns(s: string, afterUpper: bool): string {
    if s == [] then []
    else (if IsUpper(s[0]) && !afterUpper then " " else "") + [s[0]] + MarkUpperRuns(s[1..], IsUpper(s[0]))
  }

  /** Reference: a space before every upper-case letter followed by a lower-case one. */
  function MarkCapitalWords(s: string): string {
    if s == [] then []
    else (if |s| >= 2 && IsUpper(s[0]) && IsLower(s[1]) then " " else "") + [s[0]] + MarkCapitalWords(s[1..])
  }

  lemma {:induction false} MarkUpperRunsThroughRun(w: string, rest: string)
    requires forall c :: c in w ==> IsUpper(c)
    ensures MarkUpperRuns(w + rest, true) == w + MarkUpperRuns(rest, true)
  {
    if w == [] {
      assert w + rest == rest;
    } else {
      assert (w + rest)[0] == w[0] && (w + rest)[1..] == w[1..] + rest;
      assert w[0] in w;
      MarkUpperRunsThroughRun(w[1..], rest);
      assert [w[0]] + w[1..] == w;
    }
  }

  lemma MarkUpperRunsResets(rest: string)
    requires rest == [] || !IsUpper(rest[0])
    ensures MarkUpperRuns(rest, true) == MarkUpperRuns(rest, false)
  {
  }

  /** The reference puts one space before a whole run of upper-case letters. */
  lemma MarkUpperRunsOfRun(run: string, rest: string)
    requires run != [] && forall c :: c in run ==> IsUpper(c)
    requires rest == [] || !IsUpper(rest[0])
    ensures MarkUpperRuns(run + rest, false) == " " + run + MarkUpperRuns(rest, false)
  {
    var s := run + rest;
    assert s[0] == run[0] && run[0] in run;
    assert s[1..] == run[1..] + rest;
    MarkUpperRunsThroughRun(run[1..], rest);
    MarkUpperRunsResets(rest);
    assert [run[0]] + run[1..] == run;
  }

  /** One step of the scan: a run of upper-case letters gets its one space. */
  lemma UpperRunStep(s: string)
    requires s != [] && IsUpper(s[0])
    requires SpaceUpperRuns(s[|UpperRun(s)|..]) == MarkUpperRuns(s[|UpperRun(s)|..], false)
    ensures SpaceUpperRuns(s) == MarkUpperRuns(s, false)
  {
    var run := UpperRun(s);
    var rest := s[|run|..];
    assert s == run + rest;
    MarkUpperRunsOfRun(run, rest);
  }

  lemma {:induction false} SpaceUpperRunsIsReference(s: string)
    ensures SpaceUpperRuns(s) == MarkUpperRuns(s, false)
    decreases |s|
  {
    if s != [] {
      if IsUpper(s[0]) {
        SpaceUpperRunsIsReference(s[|UpperRun(s)|..]);
        UpperRunStep(s);
      } else {
        SpaceUpperRunsIsReference(s[1..]);
      }
    }
  }

  lemma {:induction false} MarkCapitalWordsThroughLower(w: string, rest: string)
    requires forall c :: c in w ==> IsLower(c)
    ensures MarkCapitalWords(w + rest) == w + MarkCapitalWords(rest)
  {
    if w == [] {
      assert w + rest == rest;
    } else {
      assert (w + rest)[0] == w[0] && (w + rest)[1..] == w[1..] + rest;
      assert w[0] in w;
      MarkCapitalWordsThroughLower(w[1..], rest);
      assert [w[0]] + w[1..] == w;
    }
  }

  /** The reference opens a capitalised word `[s[0]] + lower` with a space. */
  lemma MarkCapitalWordOpen(s: string, lower: string, rest: string)
    requires |s| >= 2 && IsUpper(s[0]) && IsLower(s[1])
    requires forall c :: c in lower ==> IsLower(c)
    requires s[1..] == lower + rest
    ensures MarkCapitalWords(s) == " " + ([s[0]] + lower) + MarkCapitalWords(rest)
  {
    MarkCapitalWordsThroughLower(lower, rest);
    assert MarkCapitalWords(s) == " " + [s[0]] + MarkCapitalWords(s[1..]);
    AppendAssoc(" " + [s[0]], lower, MarkCapitalWords(rest));
    AppendAssoc(" ", [s[0]], lower);
  }

  /** The scan replaces the match `word` at the head of `s` by a space and the match. */
  lemma SpaceCapitalWordOpen(s: string, word: string, rest: string)
    requires |s| >= 2 && IsUpper(s[0]) && IsLower(s[1])
    requires word == [s[0]] + LowerRun(s[1..]) && rest == s[|word|..]
    ensures SpaceCapitalWords(s) == " " + word + SpaceCapitalWords(rest)
  {
  }

  lemma TailSplit(s: string, lower: string, rest: string)
    requires s != [] && |lower| < |s| && lower == s[1..][..|lower|] && rest == s[1 + |lower|..]
    ensures s[1..] == lower + rest
  {
    assert s[1..][|lower|..] == rest;
  }

  /** One step of the scan: a capitalised word gets its one space. */
  lemma CapitalWordStep(s: string)
    requires |s| >= 2 && IsUpper(s[0]) && IsLower(s[1])
    requires var word := [s[0]] + LowerRun(s[1..]); SpaceCapitalWords(s[|word|..]) == MarkCapitalWords(s[|word|..])
    ensures SpaceCapitalWords(s) == MarkCapitalWords(s)
  {
    var lower := LowerRun(s[1..]);
    var word := [s[0]] + lower;
    var rest := s[|word|..];
    TailSplit(s, lower, rest);
    SpaceCapitalWordOpen(s, word, rest);
    MarkCapitalWordOpen(s, lower, rest);
  }

  lemma AppendAssoc(a: string, b: string, c: string)
    ensures a + (b + c) == a + b + c
  {
  }

  lemma OtherCharStep(s: string)
    requires s != [] && !(|s| >= 2 && IsUpper(s[0]) && IsLower(s[1]))
    requires SpaceCapitalWords(s[1..]) == MarkCapitalWords(s[1..])
    ensures SpaceCapitalWords(s) == MarkCapitalWords(s)
  {
    assert MarkCapitalWords(s) == "" + [s[0]] + MarkCapitalWords(s[1..]);
    assert "" + [s[0]] + MarkCapitalWords(s[1..]) == [s[0]] + MarkCapitalWords(s[1..]);
  }

  lemma {:induction false} SpaceCapitalWordsIsReference(s: string)
    ensures SpaceCapitalWords(s) == MarkCapitalWords(s)
    decreases |s|
  {
    if s != [] {
      if |s| >= 2 && IsUpper(s[0]) && IsLower(s[1]) {
        var word := [s[0]] + LowerRun(s[1..]);
        SpaceCapitalWordsIsReference(s[|word|..]);
        CapitalWordStep(s);
      } else {
        SpaceCapitalWordsIsReference(s[1..]);
        OtherCharStep(s);
      }
    }
  }

  /** Joining the words of a dash-free text with `_` and upper-casing the
      result leaves no lower-case letter, blank or dash. */
  lemma GuardWordsClean(spaced: string)
    requires '-' !in spaced
    ensures forall c :: c in Upper(Join(Words(spaced), "_")) ==> !IsLower(c) && !IsSpace(c) && c != '-'
  {
    var joined := Join(Words(spaced), "_");
    forall c | c in joined ensures !IsSpace(c) && c != '-' {
      JoinChars(Words(spaced), "_", c);
    }
    var upper := Upper(joined);
    forall c | c in upper ensures !IsLower(c) && !IsSpace(c) && c != '-' {
      var i :| 0 <= i < |upper| && upper[i] == c;
      assert joined[i] in joined;
    }
  }

  /** `_file_guard(target)`: dashes become spaces, both substitutions split the
      path at case changes, the words are joined with `_` and upper-cased, and
      every `/` and `.` becomes `__`. */
  function FileGuard(target: string): (g: string)
    ensures forall c :: c in g ==> !IsLower(c) && !IsSpace(c) && c != '-' && c != '/' && c != '.'
  {
    var spaced := SpaceCapitalWords(SpaceUpperRuns(Replace(target, '-', " ")));
    var upper := Upper(Join(Words(spaced), "_"));
    GuardWordsClean(spaced);
    Replace(Replace(upper, '/', "__"), '.', "__")
  }

  lemma CamelCaseSpaced()
    ensures SpaceCapitalWords(SpaceUpperRuns(Replace("aB", '-', " "))) == "a B"
  {
    assert Replace("aB", '-', " ") == "aB" by {
      assert Replace("B", '-', " ") == "B";
    }
    assert SpaceUpperRuns("B") == " B" by {
      assert UpperRun("B") == "B";
    }
    assert SpaceCapitalWords(" B") == " B" by {
      assert SpaceCapitalWords("B") == "B";
    }
  }

  lemma CamelCaseWords()
    ensures Words("a B") == ["a", "B"]
  {
    assert "a" + [' '] + "B" == "a B";
    WordsAtSpace("a", ' ', "B");
    WordsOfWord("a");
    WordsOfWord("B");
  }

  lemma CamelCaseJoined()
    ensures Replace(Replace(Upper(Join(["a", "B"], "_")), '/', "__"), '.', "__") == "A_B"
  {
    assert Join(["a", "B"], "_") == "a_B";
    assert Upper("a_B") == "A_B";
    assert Replace("A_B", '/', "__") == "A_B" by {
      assert Replace("B", '/', "__") == "B";
      assert Replace("_B", '/', "__") == "_B";
    }
    assert Replace("A_B", '.', "__") == "A_B" by {
      assert Replace("B", '.', "__") == "B";
      assert Replace("_B", '.', "__") == "_B";
    }
  }

  /** A case change inside a word becomes one `_`: `aB` gives `A_B`. */
  lemma FileGuardOfCamelCase()
    ensures FileGuard("aB") == "A_B"
  {
    CamelCaseSpaced();
    CamelCaseWords();
    CamelCaseJoined();
  }

  /** The characters the guard drops or turns into underscores. */
  predicate IsSeparator(c: char) {
    c == '-' || c == '/' || c == '.' || c == '_' || IsSpace(c)
  }

  /** `s` with its separators removed. */
  function Letters(s: string): string {
    if s == [] then [] else (if IsSeparator(s[0]) then [] else [s[0]]) + Letters(s[1..])
  }

  lemma {:induction false} LettersConcat(a: string, b: string)
    ensures Letters(a + b) == Letters(a) + Letters(b)
  {
    if a == [] {
      assert a + b == b;
    } else {
      assert (a + b)[1..] == a[1..] + b;
      LettersConcat(a[1..], b);
    }
  }

  lemma {:induction false} LettersOfReplace(s: string, c: char, with: string)
    requires IsSeparator(c) && Letters(with) == []
    ensures Letters(Replace(s, c, with)) == Letters(s)
  {
    if s != [] {
      LettersOfReplace(s[1..], c, with);
      LettersConcat(if s[0] == c then with else [s[0]], Replace(s[1..], c, with));
    }
  }

  lemma {:induction false} LettersOfMarkUpperRuns(s: string, afterUpper: bool)
    ensures Letters(MarkUpperRuns(s, afterUpper)) == Letters(s)
  {
    if s != [] {
      var sp: string := if IsUpper(s[0]) && !afterUpper then " " else "";
      LettersOfMarkUpperRuns(s[1..], IsUpper(s[0]));
      LettersConcat(sp + [s[0]], MarkUpperRuns(s[1..], IsUpper(s[0])));
      LettersConcat(sp, [s[0]]);
    }
  }

  lemma {:induction false} LettersOfMarkCapitalWords(s: string)
    ensures Letters(MarkCapitalWords(s)) == Letters(s)
  {
    if s != [] {
      var sp: string := if |s| >= 2 && IsUpper(s[0]) && IsLower(s[1]) then " " else "";
      LettersOfMarkCapitalWords(s[1..]);
      LettersConcat(sp + [s[0]], MarkCapitalWords(s[1..]));
      LettersConcat(sp, [s[0]]);
    }
  }

  lemma {:induction false} LettersOfJoin(parts: seq<string>, sep: string)
    requires Letters(sep) == []
    ensures Letters(Join(parts, sep)) == Letters(Concat(parts))
  {
    if |parts| == 1 {
      assert Concat(parts) == parts[0] + Concat([]);
      assert parts[0] + [] == parts[0];
    } else if |parts| > 1 {
      LettersOfJoin(parts[1..], sep);
      LettersConcat(parts[0] + sep, Join(parts[1..], sep));
      LettersConcat(parts[0], sep);
      LettersConcat(parts[0], Concat(parts[1..]));
    }
  }

  lemma {:induction false} LettersOfNonSpace(s: string)
    ensures Letters(NonSpace(s)) == Letters(s)
  {
    if s != [] {
      LettersOfNonSpace(s[1..]);
      LettersConcat(if IsSpace(s[0]) then [] else [s[0]], NonSpace(s[1..]));
    }
  }

  lemma {:induction false} LettersOfUpper(s: string)
    ensures Letters(Upper(s)) == Upper(Letters(s))
  {
    if s != [] {
      assert Upper(s) == [ToUpper(s[0])] + Upper(s[1..]);
      LettersOfUpper(s[1..]);
      LettersConcat([ToUpper(s[0])], Upper(s[1..]));
      assert IsSeparator(ToUpper(s[0])) <==> IsSeparator(s[0]);
      UpperConcat(if IsSeparator(s[0]) then [] else [s[0]], Letters(s[1..]));
    }
  }

  /** The guard keeps every character of the path other than separators, in
      order, upper-cased. */
  lemma FileGuardKeepsLetters(target: string)
    ensures Letters(FileGuard(target)) == Upper(Letters(target))
  {
    var dashless := Replace(target, '-', " ");
    LettersOfReplace(target, '-', " ");
    var runs := SpaceUpperRuns(dashless);
    SpaceUpperRunsIsReference(dashless);
    LettersOfMarkUpperRuns(dashless, false);
    var spaced := SpaceCapitalWords(runs);
    SpaceCapitalWordsIsReference(runs);
    LettersOfMarkCapitalWords(runs);
    var joined := Join(Words(spaced), "_");
    LettersOfJoin(Words(spaced), "_");
    WordsCoverText(spaced);
    LettersOfNonSpace(spaced);
    LettersOfUpper(joined);
    LettersOfReplace(Upper(joined), '/', "__");
    LettersOfReplace(Replace(Upper(joined), '/', "__"), '.', "__");
  }
}

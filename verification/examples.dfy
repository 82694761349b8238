/** Concrete scenarios, each exercising the code path its lemma names,
    checked against the model. */
module Examples {
  import opened Wrappers
  import opened Spelling
  import opened Entities
  import opened Loader
  import opened FullDictionary

  /** "LEAD(2)" loses its suffix; "LEAD" and "(X)" are kept; the suffix need
      not be a number. */
  lemma RemoveParensExamples()
    ensures RemoveParens("LEAD(2)") == "LEAD"
    ensures RemoveParens("LEAD") == "LEAD"
    ensures RemoveParens("(X)") == "(X)"
    ensures RemoveParens("A(B)") == "A"
  {
    assert LastIndexOf("LEAD(2)", '(') == 4;
    assert LastIndexOf("A(B)", '(') == 1;
  }

  /** Only one suffix is removed per normalisation, so normalising a key
      again can shorten it further. */
  lemma NormalizeKeyNotIdempotent()
    ensures NormalizeKey("A(1)(2)") == "a(1)"
    ensures NormalizeKey("a(1)") == "a"
  {
    assert LastIndexOf("A(1)(2)", '(') == 4;
    assert RemoveParens("A(1)(2)") == "A(1)";
    assert LastIndexOf("a(1)", '(') == 1;
    assert RemoveParens("a(1)") == "a";
  }

  /** An interner that numbers phones by length; any deterministic one would
      do for these scenarios. */
  function ExampleInterner(): Interner
  {
    Interner((name: string, filler: bool) => Unit(|name| + (if filler then 100 else 0)), Unit(0))
  }

  function Digits(): seq<Line>
  {
    [Line("ONE", ["HH", "W", "AH", "N"]), Line("ONE(2)", ["W", "AH", "N"])]
  }

  /** "ONE" and "ONE(2)" load into the single word "one" holding the
      pronunciation of the first line, then that of the second. */
  lemma DigitsExample()
    ensures var opts := LoadOptions(false, false, ExampleInterner());
      var words := LoadDictionary(Digits(), opts);
      && words.Keys == {"one"}
      && Detach(words["one"].pronunciations)
        == LinePronunciations(Digits()[0], opts) + LinePronunciations(Digits()[1], opts)
  {
    var opts := LoadOptions(false, false, ExampleInterner());
    DigitsKeys();
    DigitsCollected(opts);
    LoadedWord(Digits(), opts, "one");
  }

  /** What `LoadDictionary` gives one key, as a fact about that key alone. */
  lemma LoadedWord(lines: seq<Line>, opts: LoadOptions, key: string)
    requires key in LineKeys(lines)
    ensures key in LoadDictionary(lines, opts)
    ensures Detach(LoadDictionary(lines, opts)[key].pronunciations) == Collected(ParseLines(lines, opts), key)
  {
  }

  lemma DigitsCollected(opts: LoadOptions)
    ensures Collected(ParseLines(Digits(), opts), "one")
      == LinePronunciations(Digits()[0], opts) + LinePronunciations(Digits()[1], opts)
  {
    var entries := ParseLines(Digits(), opts);
    KeyOne();
    var rest := entries[1..];
    assert rest[1..] == [];
    assert Collected(rest, "one") == Contribution(entries[1], "one") + [];
    assert Collected(entries, "one") == Contribution(entries[0], "one") + Collected(rest, "one");
  }

  lemma DigitsKeys()
    ensures LineKeys(Digits()) == {"one"}
  {
    var lines := Digits();
    KeyOne();
    assert LineKey(lines[0]) == "one";
    assert LineKey(lines[1]) == "one";
  }

  /** The two digit lines' pronunciations: their phones resolved in order. */
  lemma DigitsLines(opts: LoadOptions)
    requires opts == LoadOptions(false, false, ExampleInterner())
    ensures LinePronunciations(Digits()[0], opts) == [Unattached([Unit(2), Unit(1), Unit(2), Unit(1)])]
    ensures LinePronunciations(Digits()[1], opts) == [Unattached([Unit(1), Unit(2), Unit(1)])]
  {
    var lines := Digits();
    assert LineUnits(lines[0].phones, opts) == [Unit(2), Unit(1), Unit(2), Unit(1)];
    assert LineUnits(lines[1].phones, opts) == [Unit(1), Unit(2), Unit(1)];
  }

  lemma KeyOne()
    ensures NormalizeKey("ONE") == "one"
    ensures NormalizeKey("ONE(2)") == "one"
  {
    assert LastIndexOf("ONE(2)", '(') == 3;
    assert RemoveParens("ONE(2)") == "ONE";
    assert ToLower("ONE") == "one";
  }

  /** With silence endings on, a word line gives the plain pronunciation and
      the same one followed by silence; a filler line gives only the first. */
  lemma SilenceEndingExample()
    ensures LinePronunciations(Line("TWO", ["T", "UW"]), LoadOptions(false, true, ExampleInterner()))
      == [Unattached([Unit(1), Unit(2)]), Unattached([Unit(1), Unit(2), Unit(0)])]
    ensures LinePronunciations(Line("++NOISE++", ["+N+"]), LoadOptions(true, true, ExampleInterner()))
      == [Unattached([Unit(103)])]
  {
    assert LineUnits(["T", "UW"], LoadOptions(false, true, ExampleInterner())) == [Unit(1), Unit(2)];
    assert [Unit(1), Unit(2)] + [Unit(0)] == [Unit(1), Unit(2), Unit(0)];
    assert LineUnits(["+N+"], LoadOptions(true, true, ExampleInterner())) == [Unit(103)];
  }

  function Unknown(): Word
  {
    Word("<unk>", [Pronunciation([Unit(0)], Some("<unk>"), DefaultProbability)], false)
  }

  function Lead(): Word
  {
    Word("lead", [Pronunciation([Unit(1)], Some("lead"), DefaultProbability)], false)
  }

  function ExampleStore(): Store
  {
    Store(map["<unk>" := Unknown(), "lead" := Lead()], map[])
  }

  /** A missing word is answered with the configured replacement. */
  lemma ReplacementExample()
    ensures var d := Dictionary(Config(false, Some("<unk>"), false, false), Loaded(ExampleStore()));
      GetWord(d, "zzz") == Answer(Some(Unknown()), d)
  {
    ToLowerFixed("zzz");
  }

  /** Requests differing only in case resolve to the same word. */
  lemma CaseExample()
    ensures var d := Dictionary(Config(false, None, false, false), Loaded(ExampleStore()));
      && GetWord(d, "Lead") == GetWord(d, "LEAD")
      && GetWord(d, "LEAD").word == Some(Lead())
  {
    var d := Dictionary(Config(false, None, false, false), Loaded(ExampleStore()));
    assert ToLower("LEAD") == "lead";
    assert ToLower("Lead") == "lead";
  }

  /** A request is lowercased but its "(n)" suffix is not removed, so
      "LEAD(2)" does not find "lead". */
  lemma SuffixNotStrippedOnRequest()
    ensures var d := Dictionary(Config(false, None, false, false), Loaded(ExampleStore()));
      GetWord(d, "LEAD(2)") == Answer(None, d)
  {
    assert ToLower("LEAD(2)") == "lead(2)";
  }

  /** With missing words allowed and created, "zzz" is None the first time
      and a word with no pronunciations the second time. */
  lemma CreateMissingExample()
    ensures var d := Dictionary(Config(false, None, true, true), Loaded(ExampleStore()));
      var first := GetWord(d, "zzz");
      && first.word.None?
      && GetWord(first.dict, "zzz").word == Some(Word("zzz", [], false))
  {
    ToLowerFixed("zzz");
  }

  /** With the example interner, the word "one" holds exactly the two
      unit sequences of its lines, first line first. */
  lemma DigitsUnits(opts: LoadOptions)
    requires opts == LoadOptions(false, false, ExampleInterner())
    ensures var words := LoadDictionary(Digits(), opts);
      && "one" in words
      && Detach(words["one"].pronunciations)
        == [Unattached([Unit(2), Unit(1), Unit(2), Unit(1)]), Unattached([Unit(1), Unit(2), Unit(1)])]
  {
    DigitsKeys();
    DigitsCollected(opts);
    LoadedWord(Digits(), opts, "one");
    DigitsLines(opts);
  }
}

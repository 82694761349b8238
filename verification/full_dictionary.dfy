/** The dictionary itself: configuration, the loaded word and filler maps,
    the allocate/deallocate lifecycle and the word-resolution policy. */
module FullDictionary {
  import opened Wrappers
  import opened Spelling
  import opened Entities
  import opened Loader

  /** Spellings of the well-known words, as the Sphinx-4 Dictionary
      interface defines them. */
  const SentenceStartSpelling: string := "<s>"
  const SentenceEndSpelling: string := "</s>"
  const SilenceSpelling: string := "<sil>"

  datatype Config = Config(
    addSilEndingPronunciation: bool,
    wordReplacement: Option<string>,
    allowMissingWords: bool,
    createMissingWords: bool)

  /** The two loaded maps, each keyed by normalised spelling. */
  datatype Store = Store(words: map<string, Word>, fillers: map<string, Word>)

  datatype State = Unloaded | Loaded(store: Store)

  datatype Dictionary = Dictionary(config: Config, state: State)

  /** The result of a word request: the word found, if any, and the
      dictionary afterwards (a missing word may have been added). */
  datatype Answer = Answer(word: Option<Word>, dict: Dictionary)

  /** Every entry is spelled as its key and owns its pronunciations; the
      word map holds non-filler words and the filler map filler words. */
  predicate Coherent(s: Store)
  {
    && (forall k :: k in s.words ==> s.words[k].spelling == k && !s.words[k].isFiller && BoundTo(s.words[k]))
    && (forall k :: k in s.fillers ==> s.fillers[k].spelling == k && s.fillers[k].isFiller && BoundTo(s.fillers[k]))
  }

  function WordOptions(config: Config, interner: Interner): LoadOptions
  {
    LoadOptions(false, config.addSilEndingPronunciation, interner)
  }

  function FillerOptions(config: Config, interner: Interner): LoadOptions
  {
    LoadOptions(true, config.addSilEndingPronunciation, interner)
  }

  /** Loads both streams unless already loaded; a second call is a no-op,
      whatever the streams now hold. */
  function Allocate(d: Dictionary, wordLines: seq<Line>, fillerLines: seq<Line>, interner: Interner): (r: Dictionary)
    ensures r.config == d.config && r.state.Loaded?
    ensures d.state.Loaded? ==> r == d
    ensures d.state.Unloaded? ==>
      && Coherent(r.state.store)
      && r.state.store.words.Keys == LineKeys(wordLines)
      && r.state.store.fillers.Keys == LineKeys(fillerLines)
    ensures d.state.Unloaded? ==> forall k :: k in r.state.store.words ==>
      Detach(r.state.store.words[k].pronunciations) == Collected(ParseLines(wordLines, WordOptions(d.config, interner)), k)
    ensures d.state.Unloaded? ==> forall k :: k in r.state.store.fillers ==>
      Detach(r.state.store.fillers[k].pronunciations) == Collected(ParseLines(fillerLines, FillerOptions(d.config, interner)), k)
  {
    if d.state.Loaded? then d
    else
      var words := LoadDictionary(wordLines, WordOptions(d.config, interner));
      var fillers := LoadDictionary(fillerLines, FillerOptions(d.config, interner));
      d.(state := Loaded(Store(words, fillers)))
  }

  /** Drops both maps; a no-op when nothing is loaded. */
  function Deallocate(d: Dictionary): (r: Dictionary)
    ensures r.config == d.config
    ensures r.state.Unloaded?
    ensures d.state.Unloaded? ==> r == d
  {
    if d.state.Loaded? then d.(state := Unloaded) else d
  }

  /** Looks a spelling up in the word map, then in the filler map. */
  function LookupWord(s: Store, spelling: string): (r: Option<Word>)
    ensures r.Some? <==> spelling in s.words || spelling in s.fillers
    ensures spelling in s.words ==> r == Some(s.words[spelling])
    ensures spelling !in s.words && spelling in s.fillers ==> r == Some(s.fillers[spelling])
  {
    if spelling in s.words then Some(s.words[spelling])
    else if spelling in s.fillers then Some(s.fillers[spelling])
    else None
  }

  /** The entry made for a missing word: no pronunciations, not a filler. */
  function Placeholder(spelling: string): (w: Word)
    ensures w.spelling == spelling && !w.isFiller && |w.pronunciations| == 0
  {
    Word(spelling, [], false)
  }

  /** The missing-word branch creates a placeholder entry. */
  predicate CreatesPlaceholder(config: Config)
  {
    config.wordReplacement.None? && config.allowMissingWords && config.createMissingWords
  }

  /** Resolves a spelling: lowercase it and look it up; if it is missing, use
      the replacement spelling if one is configured, otherwise (when missing
      words are allowed and created) remember a placeholder for later calls
      while still answering None this time. */
  function GetWord(d: Dictionary, text: string): (r: Answer)
    requires d.state.Loaded?
    ensures r.dict.config == d.config && r.dict.state.Loaded?
    ensures r.dict.state.store.fillers == d.state.store.fillers
    // present: the entry, word map first, and nothing changes
    ensures var s, key := d.state.store, ToLower(text);
      key in s.words ==> r == Answer(Some(s.words[key]), d)
    ensures var s, key := d.state.store, ToLower(text);
      key !in s.words && key in s.fillers ==> r == Answer(Some(s.fillers[key]), d)
    // missing: the replacement spelling, taken as it is, or nothing
    ensures var s, key := d.state.store, ToLower(text);
      key !in s.words && key !in s.fillers && d.config.wordReplacement.Some? ==>
        r == Answer(LookupWord(s, d.config.wordReplacement.value), d)
    ensures var s, key := d.state.store, ToLower(text);
      key !in s.words && key !in s.fillers && d.config.wordReplacement.None? ==> r.word.None?
    // the word map changes only by gaining a placeholder for a missing word
    ensures var s, key := d.state.store, ToLower(text);
      r.dict != d <==> key !in s.words && key !in s.fillers && CreatesPlaceholder(d.config)
    ensures var s, key := d.state.store, ToLower(text);
      r.dict != d ==> r.dict.state.store.words == s.words[key := Placeholder(key)]
    // what is returned was already there
    ensures var s := d.state.store;
      r.word.Some? ==> r.word.value in s.words.Values || r.word.value in s.fillers.Values
  {
    var s := d.state.store;
    var key := ToLower(text);
    var found := LookupWord(s, key);
    if found.Some? then Answer(found, d)
    else if d.config.wordReplacement.Some? then
      Answer(LookupWord(s, d.config.wordReplacement.value), d)
    else if d.config.allowMissingWords then
      if d.config.createMissingWords then
        Answer(None, d.(state := Loaded(s.(words := s.words[key := Placeholder(key)]))))
      else
        Answer(None, d)
    else
      Answer(None, d)
  }

  function GetSentenceStartWord(d: Dictionary): (r: Answer)
    requires d.state.Loaded?
    ensures r == GetWord(d, SentenceStartSpelling)
    ensures var s := d.state.store;
      SentenceStartSpelling in s.words ==> r == Answer(Some(s.words[SentenceStartSpelling]), d)
    ensures var s := d.state.store;
      SentenceStartSpelling !in s.words && SentenceStartSpelling in s.fillers ==> r == Answer(Some(s.fillers[SentenceStartSpelling]), d)
  {
    ToLowerFixed(SentenceStartSpelling);
    GetWord(d, SentenceStartSpelling)
  }

  function GetSentenceEndWord(d: Dictionary): (r: Answer)
    requires d.state.Loaded?
    ensures r == GetWord(d, SentenceEndSpelling)
    ensures var s := d.state.store;
      SentenceEndSpelling in s.words ==> r == Answer(Some(s.words[SentenceEndSpelling]), d)
    ensures var s := d.state.store;
      SentenceEndSpelling !in s.words && SentenceEndSpelling in s.fillers ==> r == Answer(Some(s.fillers[SentenceEndSpelling]), d)
  {
    ToLowerFixed(SentenceEndSpelling);
    GetWord(d, SentenceEndSpelling)
  }

  function GetSilenceWord(d: Dictionary): (r: Answer)
    requires d.state.Loaded?
    ensures r == GetWord(d, SilenceSpelling)
    ensures var s := d.state.store;
      SilenceSpelling in s.words ==> r == Answer(Some(s.words[SilenceSpelling]), d)
    ensures var s := d.state.store;
      SilenceSpelling !in s.words && SilenceSpelling in s.fillers ==> r == Answer(Some(s.fillers[SilenceSpelling]), d)
  {
    ToLowerFixed(SilenceSpelling);
    GetWord(d, SilenceSpelling)
  }

  /** All filler words, one per filler-map entry, in no particular order. */
  method GetFillerWords(d: Dictionary) returns (fillerWords: seq<Word>)
    requires d.state.Loaded?
    ensures |fillerWords| == |d.state.store.fillers|
    ensures forall w :: w in fillerWords <==> w in d.state.store.fillers.Values
    ensures Coherent(d.state.store) ==> forall w :: w in fillerWords ==> w.isFiller
  {
    var fillers := d.state.store.fillers;
    var remaining := fillers.Keys;
    ghost var visited: set<string> := {};
    fillerWords := [];
    while remaining != {}
      invariant remaining !! visited && remaining + visited == fillers.Keys
      invariant |fillerWords| == |visited|
      invariant forall w :: w in fillerWords <==> exists k :: k in visited && fillers[k] == w
      decreases |remaining|
    {
      var k :| k in remaining;
      fillerWords := fillerWords + [fillers[k]];
      remaining := remaining - {k};
      visited := visited + {k};
    }
    assert visited == fillers.Keys;
  }

  /** A lookup in a coherent store finds an entry spelled as asked, and it
      is a filler exactly when the word map lacks the spelling. */
  lemma LookupWordCoherent(s: Store, spelling: string)
    requires Coherent(s)
    ensures var r := LookupWord(s, spelling);
      r.Some? ==> r.value.spelling == spelling && (r.value.isFiller <==> spelling !in s.words)
  {
  }

  /** Requests keep the store coherent. */
  lemma GetWordPreservesCoherence(d: Dictionary, text: string)
    requires d.state.Loaded? && Coherent(d.state.store)
    ensures Coherent(GetWord(d, text).dict.state.store)
  {
  }

  /** In a coherent store the word returned is spelled as the request, in
      lowercase, or as the configured replacement. */
  lemma GetWordSpelling(d: Dictionary, text: string)
    requires d.state.Loaded? && Coherent(d.state.store)
    ensures var r := GetWord(d, text);
      r.word.Some? ==>
        r.word.value.spelling == ToLower(text) ||
        (d.config.wordReplacement.Some? && r.word.value.spelling == d.config.wordReplacement.value)
  {
  }

  /** Requests are case-insensitive: asking for a spelling is the same as
      asking for its lowercase form. */
  lemma {:induction false} GetWordIgnoresCase(d: Dictionary, text: string)
    requires d.state.Loaded?
    ensures GetWord(d, text) == GetWord(d, ToLower(text))
  {
    ToLowerIdempotent(text);
  }

  /** The first request for a missing word answers None but records a
      placeholder; the second request for it finds that placeholder. */
  lemma MissingWordFoundOnSecondRequest(d: Dictionary, text: string)
    requires d.state.Loaded? && CreatesPlaceholder(d.config)
    requires ToLower(text) !in d.state.store.words && ToLower(text) !in d.state.store.fillers
    ensures var first := GetWord(d, text);
      && first.word.None?
      && first.dict.state.store.words == d.state.store.words[ToLower(text) := Placeholder(ToLower(text))]
      && GetWord(first.dict, text) == Answer(Some(Placeholder(ToLower(text))), first.dict)
  {
  }

  /** Without a placeholder being created, a missing word stays missing:
      every later request answers the same and changes nothing. */
  lemma MissingWordStaysMissing(d: Dictionary, text: string)
    requires d.state.Loaded? && !CreatesPlaceholder(d.config)
    requires ToLower(text) !in d.state.store.words && ToLower(text) !in d.state.store.fillers
    ensures GetWord(d, text).dict == d
    ensures d.config.wordReplacement.None? ==> GetWord(d, text).word.None?
  {
  }

  /** Repeating a request never changes the store a second time. */
  lemma GetWordSettles(d: Dictionary, text: string)
    requires d.state.Loaded?
    ensures var once := GetWord(d, text).dict;
      GetWord(once, text).dict == once
  {
  }

  /** Allocation is idempotent: a second call performs no load. */
  lemma AllocateIdempotent(d: Dictionary, wordLines: seq<Line>, fillerLines: seq<Line>, interner: Interner,
                           wordLines': seq<Line>, fillerLines': seq<Line>, interner': Interner)
    ensures var once := Allocate(d, wordLines, fillerLines, interner);
      Allocate(once, wordLines', fillerLines', interner') == once
  {
  }

  /** Deallocating and allocating again reloads from the streams, dropping
      the placeholders created since the previous load. */
  lemma ReloadDropsPlaceholders(d: Dictionary, text: string, wordLines: seq<Line>, fillerLines: seq<Line>, interner: Interner)
    requires d.state.Loaded?
    ensures var after := GetWord(d, text).dict;
      Allocate(Deallocate(after), wordLines, fillerLines, interner)
        == Allocate(Deallocate(d), wordLines, fillerLines, interner)
  {
  }
}

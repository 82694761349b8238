# Sphinx-4 FullDictionary, modelled in Dafny

This project models the pronunciation-dictionary engine of CMU Sphinx-4, the class
`FullDictionary`. The engine reads a Sphinx-3 ASCII dictionary. Each line holds a
spelling, optionally followed by a `(n)` disambiguation suffix, and then the phones of
one pronunciation. The engine keeps two maps, one for ordinary words and one for filler
words. It resolves requests with a configurable missing-word policy.

Modules, one concept each:

- `Wrappers` (`wrappers.dfy`): `Option`, which stands for the possibly-null Java references.
- `Spelling` (`spelling.dfy`): ASCII lowercasing, `lastIndexOf`, `removeParensFromWord`,
  and the normalised key of a spelling.
- `Entities` (`entities.dfy`): unit handles, the unit interner, `Pronunciation` and `Word`.
  A pronunciation's back-reference to its word is held as that word's spelling (`owner`).
  It is `None` until the word is built.
- `Loader` (`loader.dfy`): loading of one stream. `ParseLines` turns each line into an
  entry: the line's key and the one or two pronunciations it adds. `Aggregate` is the
  load loop, a fold over the entries in file order. `Collected` is an independent
  reference definition that reads the entries from the front. `CreateWords` builds words
  and stamps the back-references. `LoadDictionary` composes these steps.
- `FullDictionary` (`full_dictionary.dfy`): the configuration, the `Unloaded`/`Loaded`
  lifecycle, `lookupWord`, `getWord` with its replacement, allow-missing and
  create-missing policy, the well-known words and `getFillerWords`.
- `Examples` (`examples.dfy`): concrete scenarios, each exercising the code path its
  row cites. Only the digit lines and `LEAD(2)`/`LEAD` come from the class's Javadoc.

Inputs the Java code obtains from collaborators are parameters in the model:

- The tokenizer's output is a `seq<Line>`. Each `Line` has a spelling token and a
  sequence of phone tokens, and tokens are never empty.
- The `UnitManager` is an `Interner`. It holds a total function from
  `(name, isFiller)` to a unit handle, plus the `SILENCE` unit.
- The two dictionary URLs are represented by the lines their streams yield. These
  lines are passed to `Allocate`.

Behaviours of the code worth knowing, all modelled as written:

- Lookup checks the word map first and falls back to the filler map, so a spelling in
  both maps resolves to its word entry (`FullDictionary.java:313-319`).
- Suffix stripping does not check that the text between the parentheses is digits, and
  a `(` at position 0 is not a suffix (`FullDictionary.java:262-270`). `"A(B)"` becomes
  `"A"`, and `"(X)"` is kept.
- Normalisation is not idempotent, because only one suffix is removed per call
  (`FullDictionary.java:183-184`). `"A(1)(2)"` normalises to `"a(1)"`, and normalising
  that again gives `"a"` (`Examples.NormalizeKeyNotIdempotent`).
- `getWord` lowercases its argument but does not strip a suffix
  (`FullDictionary.java:283-284`). `"LEAD(2)"` therefore does not find `"lead"`
  (`Examples.SuffixNotStrippedOnRequest`).
- The replacement spelling is looked up exactly as configured, without being lowercased
  (`FullDictionary.java:287-288`).

## Model

| member | source | states |
|---|---|---|
| `Spelling.ToLower` | src/edu/cmu/sphinx/linguist/dictionary/FullDictionary.java:184 | Lowercasing keeps the length, maps each character independently and leaves no upper-case letter. |
| `Spelling.LastIndexOf` | src/edu/cmu/sphinx/linguist/dictionary/FullDictionary.java:264 | The result is -1 or an index holding the character, and no later index holds it. |
| `Spelling.RemoveParens` | src/edu/cmu/sphinx/linguist/dictionary/FullDictionary.java:262-270 | The word changes exactly when it ends in `)` and its last `(` is at an index above 0. The result is then the prefix before that `(`. The input must be non-empty. |
| `Spelling.NormalizeKey` | src/edu/cmu/sphinx/linguist/dictionary/FullDictionary.java:183-184 | A key is no longer than its spelling and has no upper-case letter. |
| `Spelling.RemoveParensLower` | src/edu/cmu/sphinx/linguist/dictionary/FullDictionary.java:183-184 | Stripping the suffix and lowercasing commute. |
| `Spelling.NormalizeKeyIgnoresCase` | src/edu/cmu/sphinx/linguist/dictionary/FullDictionary.java:183-184 | Spellings equal up to letter case have the same key. |
| `Spelling.ToLowerIdempotent` | src/edu/cmu/sphinx/linguist/dictionary/FullDictionary.java:283 | Lowercasing twice is the same as lowercasing once. |
| `Loader.LineUnits` | src/edu/cmu/sphinx/linguist/dictionary/FullDictionary.java:185-190 | A line's units are the interner applied to each phone in order, with the stream's filler flag. No phones gives no units. |
| `Loader.LinePronunciations` | src/edu/cmu/sphinx/linguist/dictionary/FullDictionary.java:195-206 | A word line with silence endings on gives two pronunciations, the second equal to the first plus a trailing silence unit. Any other line gives one. All are unattached and weighted 1.0. |
| `Loader.ParseLines` | src/edu/cmu/sphinx/linguist/dictionary/FullDictionary.java:182-206 | Parsing keeps one entry per line, in order. Each entry holds the line's key and its pronunciations. |
| `Loader.ParsedKeys` | src/edu/cmu/sphinx/linguist/dictionary/FullDictionary.java:182-184 | The parsed entries' keys are exactly the normalised spellings of the lines. |
| `Loader.CollectedUnattached` | src/edu/cmu/sphinx/linguist/dictionary/FullDictionary.java:195-196 | Freshly loaded pronunciations point at no word yet. |
| `Loader.AddEntry` | src/edu/cmu/sphinx/linguist/dictionary/FullDictionary.java:191-207 | One load step appends a line's pronunciations to its key's list, which starts empty for a new key. Other keys are untouched. |
| `Loader.Aggregate` | src/edu/cmu/sphinx/linguist/dictionary/FullDictionary.java:178-208 | The table's keys are exactly the parsed lines' keys. Each list equals the reference `Collected`: the pronunciations of the lines with that key, concatenated in file order. |
| `Loader.AggregateUnattached` | src/edu/cmu/sphinx/linguist/dictionary/FullDictionary.java:195-208 | No pronunciation in the aggregated table points at a word yet, so detaching the back-references changes no list. |
| `Loader.CollectedSnoc` | src/edu/cmu/sphinx/linguist/dictionary/FullDictionary.java:191-207 | Reading one more line appends its contribution to every key's list. |
| `Loader.CollectedAbsent` | src/edu/cmu/sphinx/linguist/dictionary/FullDictionary.java:191-194 | A key no line has collects nothing. |
| `Loader.KeysOfSnoc` | src/edu/cmu/sphinx/linguist/dictionary/FullDictionary.java:207 | One more line adds exactly its own key to the key set. |
| `Loader.AddEntryCollected` | src/edu/cmu/sphinx/linguist/dictionary/FullDictionary.java:182-208 | One iteration of the load loop keeps the table equal to the reference definition. |
| `Loader.CollectedCount` | src/edu/cmu/sphinx/linguist/dictionary/FullDictionary.java:191-206 | When every line adds n pronunciations, a key's list has exactly n per line with that key. |
| `Loader.LineCount` | src/edu/cmu/sphinx/linguist/dictionary/FullDictionary.java:195-206 | A key's list has exactly one or two pronunciations per line with that key, as the stream's flags decide. |
| `Loader.OccurrencesPositive` | src/edu/cmu/sphinx/linguist/dictionary/FullDictionary.java:182-207 | A key is in the table exactly when some line has it. |
| `Loader.CollectedSplit` | src/edu/cmu/sphinx/linguist/dictionary/FullDictionary.java:191-197 | Later lines never remove anything. What the first n lines gave a key is a prefix of its final list. |
| `Loader.CreateWords` | src/edu/cmu/sphinx/linguist/dictionary/FullDictionary.java:220-234 | Keys are kept exactly. Each word is spelled as its key, carries the stream's filler flag and holds the key's list in order. Each pronunciation points back at its word. |
| `Loader.CreateWordsRoundTrip` | src/edu/cmu/sphinx/linguist/dictionary/FullDictionary.java:222-231 | Detaching the back-references of the built words gives back the table. |
| `Loader.LoadDictionary` | src/edu/cmu/sphinx/linguist/dictionary/FullDictionary.java:176-212 | The words of a stream are keyed by the lines' keys. Each word holds the reference pronunciations of its lines, in file order, attached to itself. |
| `Loader.LoadedWordsNonEmpty` | src/edu/cmu/sphinx/linguist/dictionary/FullDictionary.java:182-207 | No loaded word has an empty pronunciation list: every key comes from a line, and each line adds one or two. |
| `Entities.Detach` | src/edu/cmu/sphinx/linguist/dictionary/FullDictionary.java:195-196 | Dropping back-references keeps units and weights and leaves every pronunciation unattached. |
| `Entities.Attach` | src/edu/cmu/sphinx/linguist/dictionary/FullDictionary.java:228-230 | Stamping sets every back-reference to the word and changes nothing else. |
| `Entities.DetachUnattached` | src/edu/cmu/sphinx/linguist/dictionary/FullDictionary.java:195-196 | Detaching fresh pronunciations is the identity. |
| `FullDictionary.Allocate` | src/edu/cmu/sphinx/linguist/dictionary/FullDictionary.java:132-151 | A loaded dictionary is returned unchanged. An unloaded one loads the word stream as non-filler and the filler stream as filler. The result is a coherent store whose keys and pronunciations are those of the two streams. |
| `FullDictionary.Deallocate` | src/edu/cmu/sphinx/linguist/dictionary/FullDictionary.java:158-165 | The result is unloaded with the same configuration. Deallocating an unloaded dictionary is a no-op. |
| `FullDictionary.LookupWord` | src/edu/cmu/sphinx/linguist/dictionary/FullDictionary.java:313-319 | The word map's entry wins, the filler map's entry is the fallback, and otherwise there is none. |
| `FullDictionary.LookupWordCoherent` | src/edu/cmu/sphinx/linguist/dictionary/FullDictionary.java:313-319 | In a coherent store the entry found is spelled as asked. It is a filler exactly when the word map lacks the spelling. |
| `FullDictionary.Placeholder` | src/edu/cmu/sphinx/linguist/dictionary/FullDictionary.java:297 | A created missing word has the spelling, no pronunciations, and is not a filler. |
| `FullDictionary.GetWord` | src/edu/cmu/sphinx/linguist/dictionary/FullDictionary.java:282-304 | The request is lowercased. A present entry is returned with nothing changed. A missing one yields exactly `lookupWord` of the replacement spelling if a replacement is set, and otherwise none. The store changes exactly when the word is missing, there is no replacement, and missing words are allowed and created; the word map then gains the placeholder. A returned word was already in the store. |
| `FullDictionary.GetWordPreservesCoherence` | src/edu/cmu/sphinx/linguist/dictionary/FullDictionary.java:295-300 | Requests, including placeholder creation, keep the store coherent. |
| `FullDictionary.GetWordSpelling` | src/edu/cmu/sphinx/linguist/dictionary/FullDictionary.java:282-304 | A returned word is spelled as the lowercased request or as the configured replacement. |
| `FullDictionary.GetWordIgnoresCase` | src/edu/cmu/sphinx/linguist/dictionary/FullDictionary.java:283 | A request equals the request for its lowercase form. |
| `FullDictionary.MissingWordFoundOnSecondRequest` | src/edu/cmu/sphinx/linguist/dictionary/FullDictionary.java:295-300 | With creation on, the first request for a missing word answers none but adds the placeholder. The second request returns that placeholder. |
| `FullDictionary.MissingWordStaysMissing` | src/edu/cmu/sphinx/linguist/dictionary/FullDictionary.java:285-303 | Without creation, a missing word leaves the dictionary unchanged. Without a replacement it answers none. |
| `FullDictionary.GetWordSettles` | src/edu/cmu/sphinx/linguist/dictionary/FullDictionary.java:295-300 | Repeating a request never changes the store a second time. |
| `FullDictionary.AllocateIdempotent` | src/edu/cmu/sphinx/linguist/dictionary/FullDictionary.java:134 | A second allocation performs no load, whatever the streams now hold. |
| `FullDictionary.ReloadDropsPlaceholders` | src/edu/cmu/sphinx/linguist/dictionary/FullDictionary.java:158-165 | After deallocation, reallocating gives the same dictionary whether or not placeholders were created before. |
| `FullDictionary.GetSentenceStartWord` | src/edu/cmu/sphinx/linguist/dictionary/FullDictionary.java:328-330 | Resolves `<s>` through `getWord`: the word-map entry if there is one, otherwise the filler-map entry, with nothing changed. |
| `FullDictionary.GetSentenceEndWord` | src/edu/cmu/sphinx/linguist/dictionary/FullDictionary.java:339-341 | Resolves `</s>` through `getWord`: the word-map entry if there is one, otherwise the filler-map entry, with nothing changed. |
| `FullDictionary.GetSilenceWord` | src/edu/cmu/sphinx/linguist/dictionary/FullDictionary.java:350-352 | Resolves `<sil>` through `getWord`: the word-map entry if there is one, otherwise the filler-map entry, with nothing changed. |
| `FullDictionary.GetFillerWords` | src/edu/cmu/sphinx/linguist/dictionary/FullDictionary.java:419-421 | One word per filler-map entry, and exactly the filler map's values. In a coherent store all of them are fillers. |
| `Examples.RemoveParensExamples` | src/edu/cmu/sphinx/linguist/dictionary/FullDictionary.java:255-256 | `LEAD(2)` becomes `LEAD`. `LEAD` and `(X)` stay unchanged. `A(B)` becomes `A`. |
| `Examples.NormalizeKeyNotIdempotent` | src/edu/cmu/sphinx/linguist/dictionary/FullDictionary.java:262-270 | `A(1)(2)` has key `a(1)`, whose own key is `a`. |
| `Examples.DigitsExample` | src/edu/cmu/sphinx/linguist/dictionary/FullDictionary.java:41-42 | `ONE` and `ONE(2)` load as the single word `one` with both pronunciations in file order. |
| `Examples.DigitsUnits` | src/edu/cmu/sphinx/linguist/dictionary/FullDictionary.java:187-196 | With a concrete interner, `one` holds exactly the two unit sequences of its lines, first line first. |
| `Examples.SilenceEndingExample` | src/edu/cmu/sphinx/linguist/dictionary/FullDictionary.java:199-206 | A word line gains a silence-ending twin and a filler line does not. |
| `Examples.ReplacementExample` | src/edu/cmu/sphinx/linguist/dictionary/FullDictionary.java:287-288 | A missing word is answered with the `<unk>` replacement. |
| `Examples.CaseExample` | src/edu/cmu/sphinx/linguist/dictionary/FullDictionary.java:283 | `Lead` and `LEAD` resolve to the same word. |
| `Examples.SuffixNotStrippedOnRequest` | src/edu/cmu/sphinx/linguist/dictionary/FullDictionary.java:283-284 | `LEAD(2)` does not find `lead`. |
| `Examples.CreateMissingExample` | src/edu/cmu/sphinx/linguist/dictionary/FullDictionary.java:295-300 | `zzz` is none the first time and an empty word the second time. |

## Left out

- Stream opening and closing, `IOException` propagation, and `ExtendedStreamTokenizer`. These are I/O; the model starts from the tokenised lines.
- The `UnitManager` internals, `Context.EMPTY_CONTEXT`, and process-wide identity sharing of units. The interner is a deterministic function, so equal `(name, isFiller)` pairs give equal handles; identity of instances belongs to the collaborator.
- `Spelling.ToLower`: maps only ASCII letters, because Java's `toLowerCase` is Unicode- and locale-dependent and its tables are outside this model.
- The `Timer`/`TimerPool` instrumentation and `Logger` messages. They are side effects only.
- `newProperties`, `PropertySheet` wiring, the constructors and the unused `addendaUrlList` parameter. They are configuration; `Config` holds the four settings that matter.
- `getWordDictionaryFile`, `getFillerDictionaryFile`, `toString` and `dumpToString`. They are accessors and debug formatting.
- `getPossibleWordClassifications`, which always returns null.
- The `tag` and `wordClassification` arguments of each new pronunciation. The loader always passes null for both, so `Pronunciation` has no such fields.
- The pronunciation weight is carried as the constant 1.0 and is not reasoned about. The Java value is a `float`.
- HashMap iteration order. `GetFillerWords` picks keys in an unspecified order.
- `new Word(text, null, false)` passes a null pronunciation array. The Word class is not part of this model, and the placeholder has an empty pronunciation sequence.
- Requests on an unallocated dictionary dereference a null map in the Java code. `GetWord` and the functions built on it therefore require a loaded dictionary.
- The values of the well-known spellings `<s>`, `</s>` and `<sil>` come from the Dictionary interface, which is not part of this model.

/** Loading of one Sphinx-3 ASCII dictionary stream. The tokenizer's output
    is taken as given: one `Line` per entry, its first token the spelling and
    the remaining tokens the phones. */
module Loader {
  import opened Wrappers
  import opened Spelling
  import opened Entities

  /** A token as the tokenizer yields it: never empty. */
  type Token = s: string | |s| > 0 witness "x"

  datatype Line = Line(spelling: Token, phones: seq<Token>)

  /** What one load depends on besides the lines: whether this is the filler
      stream, whether silence-ending pronunciations are added, and the unit
      interner. */
  datatype LoadOptions = LoadOptions(isFillerDict: bool, addSilEndingPronunciation: bool, interner: Interner)

  /** Normalised spelling to pronunciations, in file order. */
  type Table = map<string, seq<Pronunciation>>

  function LineKey(line: Line): string
  {
    NormalizeKey(line.spelling)
  }

  /** How many pronunciations each line contributes. */
  function PerLine(opts: LoadOptions): nat
  {
    if !opts.isFillerDict && opts.addSilEndingPronunciation then 2 else 1
  }

  /** The units of a line's phones, resolved one by one in order. */
  function LineUnits(phones: seq<Token>, opts: LoadOptions): (r: seq<Unit>)
    ensures |r| == |phones|
    ensures forall i :: 0 <= i < |phones| ==> r[i] == opts.interner.resolve(phones[i], opts.isFillerDict)
  {
    if |phones| == 0 then []
    else [opts.interner.resolve(phones[0], opts.isFillerDict)] + LineUnits(phones[1..], opts)
  }

  /** The pronunciations one line adds: the plain one, then, for a word
      stream with silence endings on, the same units followed by silence. */
  function LinePronunciations(line: Line, opts: LoadOptions): (r: seq<Pronunciation>)
    ensures |r| == PerLine(opts)
    ensures AllUnattached(r)
    ensures forall p :: p in r ==> p.probability == DefaultProbability
    ensures r[0].units == LineUnits(line.phones, opts)
    ensures |r| == 2 ==> r[1].units == r[0].units + [opts.interner.silence]
  {
    var units := LineUnits(line.phones, opts);
    if !opts.isFillerDict && opts.addSilEndingPronunciation then
      [Unattached(units), Unattached(units + [opts.interner.silence])]
    else
      [Unattached(units)]
  }

  /** A parsed line: its key and the pronunciations it adds. */
  datatype Entry = Entry(key: string, pronunciations: seq<Pronunciation>)

  function ParseLine(line: Line, opts: LoadOptions): Entry
  {
    Entry(LineKey(line), LinePronunciations(line, opts))
  }

  function ParseLines(lines: seq<Line>, opts: LoadOptions): (entries: seq<Entry>)
    ensures |entries| == |lines|
    ensures forall i :: 0 <= i < |lines| ==> entries[i] == ParseLine(lines[i], opts)
  {
    seq(|lines|, i requires 0 <= i < |lines| => ParseLine(lines[i], opts))
  }

  /** The keys the lines mention. */
  function LineKeys(lines: seq<Line>): set<string>
  {
    set i | 0 <= i < |lines| :: LineKey(lines[i])
  }

  /** What an entry contributes to the list under `key`. */
  function Contribution(e: Entry, key: string): seq<Pronunciation>
  {
    if e.key == key then e.pronunciations else []
  }

  /** Reference definition: the pronunciations the entries give `key`, read
      from the first entry onwards. */
  function Collected(entries: seq<Entry>, key: string): seq<Pronunciation>
  {
    if |entries| == 0 then []
    else Contribution(entries[0], key) + Collected(entries[1..], key)
  }

  function KeysOf(entries: seq<Entry>): set<string>
  {
    set i | 0 <= i < |entries| :: entries[i].key
  }

  /** The number of entries whose key is `key`. */
  function Occurrences(entries: seq<Entry>, key: string): nat
  {
    if |entries| == 0 then 0
    else (if entries[0].key == key then 1 else 0) + Occurrences(entries[1..], key)
  }

  /** The entries of parsed lines have exactly the lines' keys. */
  lemma ParsedKeys(lines: seq<Line>, opts: LoadOptions)
    ensures KeysOf(ParseLines(lines, opts)) == LineKeys(lines)
  {
  }

  /** Freshly loaded pronunciations point at no word yet. */
  lemma {:induction false} CollectedUnattached(entries: seq<Entry>, key: string)
    requires forall i :: 0 <= i < |entries| ==> AllUnattached(entries[i].pronunciations)
    ensures AllUnattached(Collected(entries, key))
  {
    if |entries| > 0 {
      CollectedUnattached(entries[1..], key);
    }
  }

  /** Appending an entry appends its contribution to every key. */
  lemma {:induction false} CollectedSnoc(entries: seq<Entry>, e: Entry, key: string)
    ensures Collected(entries + [e], key) == Collected(entries, key) + Contribution(e, key)
  {
    var whole := entries + [e];
    if |entries| == 0 {
      assert whole[1..] == [];
    } else {
      var rest := entries[1..];
      CollectedSnoc(rest, e, key);
      assert Collected(whole, key) == Contribution(entries[0], key) + Collected(rest + [e], key) by {
        assert whole[0] == entries[0];
        assert whole[1..] == rest + [e];
      }
      assert Collected(entries, key) == Contribution(entries[0], key) + Collected(rest, key);
    }
  }

  /** One step of the load loop: the entry's pronunciations are appended to
      its key's list, which starts empty for a new key; other keys keep
      theirs. */
  function AddEntry(table: Table, e: Entry): (r: Table)
    ensures r.Keys == table.Keys + {e.key}
    ensures forall k :: k in table && k != e.key ==> r[k] == table[k]
    ensures e.key in table ==> r[e.key] == table[e.key] + e.pronunciations
    ensures e.key !in table ==> r[e.key] == e.pronunciations
  {
    var before := if e.key in table then table[e.key] else [];
    table[e.key := before + e.pronunciations]
  }

  /** The keys of one more entry. */
  lemma KeysOfSnoc(prefix: seq<Entry>, e: Entry)
    ensures KeysOf(prefix + [e]) == KeysOf(prefix) + {e.key}
  {
    var entries := prefix + [e];
    forall k | k in KeysOf(entries) ensures k in KeysOf(prefix) + {e.key} {
      var i :| 0 <= i < |entries| && entries[i].key == k;
      if i < |prefix| {
        assert prefix[i].key == k;
      }
    }
    forall k | k in KeysOf(prefix) ensures k in KeysOf(entries) {
      var i :| 0 <= i < |prefix| && prefix[i].key == k;
      assert entries[i].key == k;
    }
    assert entries[|prefix|].key == e.key;
  }

  /** A key no entry has collects nothing. */
  lemma {:induction false} CollectedAbsent(entries: seq<Entry>, key: string)
    requires key !in KeysOf(entries)
    ensures Collected(entries, key) == []
  {
    if |entries| > 0 {
      assert entries[0].key in KeysOf(entries);
      assert key !in KeysOf(entries[1..]) by {
        forall i | 0 <= i < |entries[1..]| ensures entries[1..][i].key != key {
          assert entries[1..][i] == entries[i + 1];
        }
      }
      CollectedAbsent(entries[1..], key);
    }
  }

  /** One iteration of the load loop keeps the table in agreement with the
      reference definition. */
  lemma {:induction false} AddEntryCollected(before: Table, prefix: seq<Entry>, e: Entry)
    requires before.Keys == KeysOf(prefix)
    requires forall k :: k in before ==> before[k] == Collected(prefix, k)
    ensures AddEntry(before, e).Keys == KeysOf(prefix + [e])
    ensures forall k :: k in AddEntry(before, e) ==> AddEntry(before, e)[k] == Collected(prefix + [e], k)
  {
    KeysOfSnoc(prefix, e);
    var after := AddEntry(before, e);
    forall k | k in after ensures after[k] == Collected(prefix + [e], k) {
      CollectedSnoc(prefix, e, k);
      if k == e.key && k !in before {
        CollectedAbsent(prefix, k);
      }
    }
  }

  /** The entries folded into a table in file order, as the load loop does. */
  function Aggregate(entries: seq<Entry>): (table: Table)
    ensures table.Keys == KeysOf(entries)
    ensures forall k :: k in table ==> table[k] == Collected(entries, k)
    decreases |entries|
  {
    if |entries| == 0 then map[]
    else
      var prefix, e := entries[..|entries| - 1], entries[|entries| - 1];
      assert entries == prefix + [e];
      var before := Aggregate(prefix);
      AddEntryCollected(before, prefix, e);
      AddEntry(before, e)
  }

  /** When every entry adds `n` pronunciations, a key collects `n` per entry
      that has it. */
  lemma {:induction false} CollectedCount(entries: seq<Entry>, key: string, n: nat)
    requires forall i :: 0 <= i < |entries| ==> |entries[i].pronunciations| == n
    ensures |Collected(entries, key)| == n * Occurrences(entries, key)
  {
    if |entries| > 0 {
      CollectedCount(entries[1..], key, n);
      var head := if entries[0].key == key then 1 else 0;
      assert |Contribution(entries[0], key)| == n * head;
      assert n * (head + Occurrences(entries[1..], key)) == n * head + n * Occurrences(entries[1..], key);
    }
  }

  /** Each line adds exactly `PerLine` pronunciations under its key. */
  lemma LineCount(lines: seq<Line>, key: string, opts: LoadOptions)
    ensures var entries := ParseLines(lines, opts);
      |Collected(entries, key)| == PerLine(opts) * Occurrences(entries, key)
  {
    CollectedCount(ParseLines(lines, opts), key, PerLine(opts));
  }

  /** A key is present exactly when some entry has it. */
  lemma {:induction false} OccurrencesPositive(entries: seq<Entry>, key: string)
    ensures Occurrences(entries, key) > 0 <==> key in KeysOf(entries)
  {
    if |entries| > 0 {
      OccurrencesPositive(entries[1..], key);
      assert KeysOf(entries) == {entries[0].key} + KeysOf(entries[1..]) by {
        forall k | k in KeysOf(entries) ensures k in {entries[0].key} + KeysOf(entries[1..]) {
          var i :| 0 <= i < |entries| && entries[i].key == k;
          if i > 0 {
            assert entries[1..][i - 1] == entries[i];
          }
        }
        forall k | k in KeysOf(entries[1..]) ensures k in KeysOf(entries) {
          var i :| 0 <= i < |entries[1..]| && entries[1..][i].key == k;
          assert entries[1..][i] == entries[i + 1];
        }
      }
    }
  }

  /** Reading more lines never loses what a key collected earlier: what the
      first `n` entries give is a prefix of the whole list. */
  lemma {:induction false} CollectedSplit(entries: seq<Entry>, n: nat, key: string)
    requires n <= |entries|
    ensures Collected(entries, key) == Collected(entries[..n], key) + Collected(entries[n..], key)
  {
    if n > 0 {
      var rest := entries[1..];
      CollectedSplit(rest, n - 1, key);
      assert entries[..n][0] == entries[0];
      assert entries[..n][1..] == rest[..n - 1];
      assert entries[n..] == rest[n - 1..];
    }
  }

  /** Turns the collected lists into words: one word per key, spelled as
      the key, holding the list in order, each pronunciation pointing back at
      its word. */
  function CreateWords(table: Table, isFillerDict: bool): (words: map<string, Word>)
    ensures words.Keys == table.Keys
    ensures forall k :: k in words ==>
      && words[k].spelling == k
      && words[k].isFiller == isFillerDict
      && BoundTo(words[k])
      && Detach(words[k].pronunciations) == Detach(table[k])
  {
    map k | k in table :: Word(k, Attach(table[k], k), isFillerDict)
  }

  /** Building words loses nothing: detaching the back-references gives the
      table back. */
  lemma CreateWordsRoundTrip(table: Table, isFillerDict: bool)
    requires forall k :: k in table ==> AllUnattached(table[k])
    ensures var words := CreateWords(table, isFillerDict);
      (map k | k in words :: Detach(words[k].pronunciations)) == table
  {
    forall k | k in table {
      DetachUnattached(table[k]);
    }
  }

  /** The table of parsed lines holds only unattached pronunciations. */
  lemma AggregateUnattached(entries: seq<Entry>, table: Table)
    requires forall i :: 0 <= i < |entries| ==> AllUnattached(entries[i].pronunciations)
    requires table == Aggregate(entries)
    ensures forall k :: k in table ==> Detach(table[k]) == table[k]
  {
    forall k | k in table ensures Detach(table[k]) == table[k] {
      CollectedUnattached(entries, k);
      DetachUnattached(table[k]);
    }
  }

  /** Loads one stream: the words of the file, keyed by normalised spelling,
      each holding the pronunciations of all its lines in file order. */
  function LoadDictionary(lines: seq<Line>, opts: LoadOptions): (words: map<string, Word>)
    ensures words.Keys == LineKeys(lines)
    ensures forall k :: k in words ==> words[k].spelling == k && words[k].isFiller == opts.isFillerDict
    ensures forall k :: k in words ==> BoundTo(words[k])
    ensures forall k :: k in words ==> Detach(words[k].pronunciations) == Collected(ParseLines(lines, opts), k)
  {
    var entries := ParseLines(lines, opts);
    var table := Aggregate(entries);
    ParsedKeys(lines, opts);
    AggregateUnattached(entries, table);
    var words := CreateWords(table, opts.isFillerDict);
    assert forall k :: k in words ==> Detach(words[k].pronunciations) == Collected(entries, k) by {
      forall k | k in words ensures Detach(words[k].pronunciations) == Collected(entries, k) {
        assert Detach(words[k].pronunciations) == Detach(table[k]) == table[k];
      }
    }
    words
  }

  /** Every loaded word has at least one pronunciation: a key exists only
      because some line has it, and each such line adds one or two. */
  lemma LoadedWordsNonEmpty(lines: seq<Line>, opts: LoadOptions)
    ensures var words := LoadDictionary(lines, opts);
      forall k :: k in words ==> |words[k].pronunciations| >= 1
  {
    var entries := ParseLines(lines, opts);
    var words := LoadDictionary(lines, opts);
    forall k | k in words ensures |words[k].pronunciations| >= 1 {
      assert k in KeysOf(entries) by { ParsedKeys(lines, opts); }
      assert Occurrences(entries, k) >= 1 by { OccurrencesPositive(entries, k); }
      assert |Collected(entries, k)| >= 1 by {
        var n, m := PerLine(opts), Occurrences(entries, k);
        LineCount(lines, k, opts);
        assert n * m >= n * 1;
      }
      assert |words[k].pronunciations| == |Detach(words[k].pronunciations)| == |Collected(entries, k)|;
    }
  }
}

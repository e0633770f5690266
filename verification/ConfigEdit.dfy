/** Lookups in a configuration, and the set, add and del commands that edit it through its text. */
module ConfigEdit {
  import opened Config
  import opened KnownKeys
  import opened Results
  import opened Text

  predicate Matches(e: Entry, key: string) {
    EqualFold(e.key, key)
  }

  /** The values under a key, in order. */
  function AllValues(es: seq<Entry>, key: string): seq<string> {
    if es == [] then []
    else (if Matches(es[0], key) then [es[0].value] else []) + AllValues(es[1..], key)
  }

  lemma ValuesFrom(es: seq<Entry>, key: string, i: nat)
    requires i < |es|
    ensures AllValues(es[i..], key) == (if Matches(es[i], key) then [es[i].value] else []) + AllValues(es[i + 1..], key)
  {
    assert es[i..][0] == es[i] && es[i..][1..] == es[i + 1..];
  }

  method GetAll(es: seq<Entry>, key: string) returns (out: seq<string>)
    ensures out == AllValues(es, key)
  {
    out := [];
    for i := 0 to |es|
      invariant AllValues(es, key) == out + AllValues(es[i..], key)
    {
      ValuesFrom(es, key, i);
      ghost var before, rest := out, AllValues(es[i + 1..], key);
      if Matches(es[i], key) {
        out := out + [es[i].value];
        assert before + ([es[i].value] + rest) == out + rest;
      } else {
        assert [] + rest == rest;
      }
    }
  }

  /** The first value of GetAll, and whether there is one. */
  method GetFirst(es: seq<Entry>, key: string) returns (value: string, ok: bool)
    ensures ok == (AllValues(es, key) != [])
    ensures value == if ok then AllValues(es, key)[0] else ""
  {
    for i := 0 to |es|
      invariant AllValues(es, key) == AllValues(es[i..], key)
    {
      assert es[i..][0] == es[i] && es[i..][1..] == es[i + 1..];
      if Matches(es[i], key) {
        return es[i].value, true;
      }
    }
    return "", false;
  }

  // The commands

  /** The entry is removed by `del key value`; an empty value stands for any. */
  predicate Hit(e: Entry, key: string, value: string) {
    Matches(e, key) && (value == "" || e.value == value)
  }

  function Kept(es: seq<Entry>, key: string, value: string): seq<Entry> {
    if es == [] then []
    else (if Hit(es[0], key, value) then [] else [es[0]]) + Kept(es[1..], key, value)
  }

  method Drop(es: seq<Entry>, key: string, value: string) returns (kept: seq<Entry>)
    ensures kept == Kept(es, key, value)
  {
    kept := [];
    for i := 0 to |es|
      invariant Kept(es, key, value) == kept + Kept(es[i..], key, value)
    {
      assert es[i..][0] == es[i] && es[i..][1..] == es[i + 1..];
      ghost var before, rest := kept, Kept(es[i + 1..], key, value);
      if !Hit(es[i], key, value) {
        kept := kept + [es[i]];
        assert before + ([es[i]] + rest) == kept + rest;
      } else {
        assert [] + rest == rest;
      }
    }
  }

  /** The entries of a file; a missing file has none. */
  function EntriesOf(names: seq<string>, file: Option<string>): Result<seq<Entry>> {
    if file.None? then Ok([]) else ParseWithin(MAX_LINE, names, file.value)
  }

  function Mutated(es: seq<Entry>, key: string, value: string, replace: bool): seq<Entry> {
    (if replace then Kept(es, key, "") else es) + [Entry(key, value)]
  }

  /** `set` and `add`: the new text, or the error that leaves the file alone. */
  method MutateConf(file: Option<string>, key: string, value: string, replace: bool)
    returns (text: Result<string>)
    ensures var es := EntriesOf(KNOWN_KEYS, file);
            text == if es.Ok? then Ok(RenderAll(Mutated(es.value, key, value, replace))) else Err(es.error)
  {
    var entries: seq<Entry> := [];
    if file.Some? {
      var r := Parse(MAX_LINE, KNOWN_KEYS, file.value);
      if r.Err? {
        return Err(r.error);
      }
      entries := r.value;
    }
    if replace {
      entries := Drop(entries, key, "");
    }
    var b := Render(entries + [Entry(key, value)]);
    return Ok(b);
  }

  method DelConf(text: string, key: string, value: string) returns (r: Result<string>)
    ensures var es := ParseWithin(MAX_LINE, KNOWN_KEYS, text);
            r == if es.Ok? then Ok(RenderAll(Kept(es.value, key, value))) else Err(es.error)
  {
    var es := Parse(MAX_LINE, KNOWN_KEYS, text);
    if es.Err? {
      return Err(es.error);
    }
    var kept := Drop(es.value, key, value);
    var b := Render(kept);
    return Ok(b);
  }

  // What the edits do

  lemma {:induction false} AllValuesConcat(a: seq<Entry>, b: seq<Entry>, key: string)
    ensures AllValues(a + b, key) == AllValues(a, key) + AllValues(b, key)
  {
    if a == [] {
      assert a + b == b;
    } else {
      AllValuesConcat(a[1..], b, key);
      assert (a + b)[1..] == a[1..] + b && (a + b)[0] == a[0];
    }
  }

  lemma {:induction false} AllValuesCanonical(names: seq<string>, es: seq<Entry>, key: string)
    ensures AllValues(Canonical(names, es), key) == AllValues(es, key)
  {
    if es != [] {
      AllValuesCanonical(names, es[1..], key);
      CanonicalKeyFolds(names, es[0].key);
      assert Canonical(names, es)[1..] == Canonical(names, es[1..]);
    }
  }

  /** Values other than the one deleted. */
  function Except(vs: seq<string>, value: string): seq<string> {
    if vs == [] then [] else (if value == "" || vs[0] == value then [] else [vs[0]]) + Except(vs[1..], value)
  }

  lemma {:induction false} KeptValues(es: seq<Entry>, key: string, value: string, j: string)
    ensures AllValues(Kept(es, key, value), j) ==
              if EqualFold(key, j) then Except(AllValues(es, j), value) else AllValues(es, j)
    ensures forall e :: e in Kept(es, key, value) ==> e in es
  {
    if es != [] {
      KeptValues(es[1..], key, value, j);
      var head := if Hit(es[0], key, value) then [] else [es[0]];
      AllValuesConcat(head, Kept(es[1..], key, value), j);
      ExceptConcat(if Matches(es[0], j) then [es[0].value] else [], AllValues(es[1..], j), value);
    }
  }

  lemma ExceptConcat(vs: seq<string>, ws: seq<string>, value: string)
    requires |vs| <= 1
    ensures Except(vs + ws, value) == Except(vs, value) + Except(ws, value)
  {
    if vs == [] {
      assert vs + ws == ws;
    } else {
      assert (vs + ws)[1..] == ws && vs[1..] == [];
    }
  }

  /** An entry is kept in its place unless its key folds to the key and its value is the one deleted, or any is. */
  lemma {:induction false} KeptOneMore(es: seq<Entry>, e: Entry, key: string, value: string)
    ensures Kept(es + [e], key, value) ==
              Kept(es, key, value) + if EqualFold(e.key, key) && (value == "" || e.value == value) then [] else [e]
  {
    if es == [] {
      assert es + [e] == [e] && [e][1..] == [];
    } else {
      KeptOneMore(es[1..], e, key, value);
      assert (es + [e])[1..] == es[1..] + [e] && (es + [e])[0] == es[0];
    }
  }

  /** What `set` and `add` write reads back as the entries kept, in their order, and the new one at the end. */
  lemma NewEntryIsLast(limit: nat, names: seq<string>, es: seq<Entry>, key: string, value: string, replace: bool)
    requires WellFormed(names, es) && ValidKey(key) && ValidValue(value)
    requires LinesFit(limit, Mutated(es, key, value, replace))
    ensures ParseWithin(limit, names, RenderAll(Mutated(es, key, value, replace))) ==
              Ok((if replace then Kept(es, key, "") else es) + [Entry(CanonicalKey(names, key), value)])
  {
    var all := Mutated(es, key, value, replace);
    MutatedIsValid(names, es, key, value, replace);
    RenderedParses(names, all);
    RenderedFitsAlone(limit, all);
    WithinIff(limit, names, RenderAll(all));
    KeptValues(es, key, "", key);
    CanonicalLast(names, if replace then Kept(es, key, "") else es, Entry(key, value));
  }

  lemma CanonicalLast(names: seq<string>, es: seq<Entry>, e: Entry)
    requires WellFormed(names, es)
    ensures Canonical(names, es + [e]) == es + [Entry(CanonicalKey(names, e.key), e.value)]
  {
    assert forall i :: 0 <= i < |es| ==> es[i] in es;
  }

  /** The edit took: the key has these values, and every other key what it had before. */
  ghost predicate Took(limit: nat, names: seq<string>, es: seq<Entry>, text: string, key: string, values: seq<string>) {
    && ParseWithin(limit, names, text).Ok?
    && AllValues(ParseWithin(limit, names, text).value, key) == values
    && forall j :: !EqualFold(key, j) ==> AllValues(ParseWithin(limit, names, text).value, j) == AllValues(es, j)
  }

  /** A value found in a parsed text could be written, and so could the key it is found under. */
  lemma {:induction false} FoundIsValid(es: seq<Entry>, key: string, v: string)
    requires (forall e :: e in es ==> ValidEntry(e)) && v in AllValues(es, key)
    ensures ValidKey(key) && ValidValue(v)
  {
    if Matches(es[0], key) && es[0].value == v {
      assert ValidEntry(es[0]);
      ValidKeyFolds(es[0].key, key);
    } else {
      FoundIsValid(es[1..], key, v);
    }
  }

  lemma MutatedValues(names: seq<string>, es: seq<Entry>, key: string, value: string, replace: bool, j: string)
    ensures AllValues(Canonical(names, Mutated(es, key, value, replace)), j) ==
              if !EqualFold(key, j) then AllValues(es, j)
              else (if replace then [] else AllValues(es, j)) + [value]
  {
    var base := if replace then Kept(es, key, "") else es;
    AllValuesCanonical(names, Mutated(es, key, value, replace), j);
    AllValuesConcat(base, [Entry(key, value)], j);
    assert AllValues([Entry(key, value)][1..], j) == [];
    KeptValues(es, key, "", j);
    ExceptAll(AllValues(es, j));
  }

  lemma MutatedIsValid(names: seq<string>, es: seq<Entry>, key: string, value: string, replace: bool)
    requires WellFormed(names, es) && ValidKey(key) && ValidValue(value)
    ensures forall e :: e in Mutated(es, key, value, replace) ==> ValidEntry(e)
  {
    KeptValues(es, key, "", key);
  }

  lemma MutatedReadsBack(limit: nat, names: seq<string>, es: seq<Entry>, key: string, value: string, replace: bool)
    requires WellFormed(names, es) && ValidKey(key) && ValidValue(value)
    requires LinesFit(limit, Mutated(es, key, value, replace))
    ensures Took(limit, names, es, RenderAll(Mutated(es, key, value, replace)), key,
                 if replace then [value] else AllValues(es, key) + [value])
  {
    var all := Mutated(es, key, value, replace);
    MutatedIsValid(names, es, key, value, replace);
    RenderedParses(names, all);
    RenderedFitsAlone(limit, all);
    WithinIff(limit, names, RenderAll(all));
    MutatedValues(names, es, key, value, replace, key);
    forall j | !EqualFold(key, j) ensures AllValues(Canonical(names, all), j) == AllValues(es, j) {
      MutatedValues(names, es, key, value, replace, j);
    }
  }

  /** A text that reads back with the value under the key: both can be written and every line fits. */
  lemma ReadsBackFits(limit: nat, names: seq<string>, es: seq<Entry>, key: string, value: string, replace: bool)
    requires WellFormed(names, es)
    requires var text := RenderAll(Mutated(es, key, value, replace));
             ParseWithin(limit, names, text).Ok? && value in AllValues(ParseWithin(limit, names, text).value, key)
    ensures ValidKey(key) && ValidValue(value) && LinesFit(limit, Mutated(es, key, value, replace))
  {
    var all := Mutated(es, key, value, replace);
    WithinIff(limit, names, RenderAll(all));
    ParsedWellFormed(names, RenderAll(all));
    FoundIsValid(ParseText(names, RenderAll(all)).value, key, value);
    MutatedIsValid(names, es, key, value, replace);
    RenderedFitsAlone(limit, all);
  }

  lemma {:induction false} ExceptAll(vs: seq<string>)
    ensures Except(vs, "") == []
  {
    if vs != [] { ExceptAll(vs[1..]); }
  }

  /**
  `set k v` leaves exactly the value v under k and all other keys alone, exactly when k and v can be written and every
  line of the new file fits.
  */
  lemma SetTakesIffValid(limit: nat, names: seq<string>, es: seq<Entry>, key: string, value: string)
    requires WellFormed(names, es)
    ensures Took(limit, names, es, RenderAll(Mutated(es, key, value, true)), key, [value]) <==>
              ValidKey(key) && ValidValue(value) && LinesFit(limit, Mutated(es, key, value, true))
  {
    if Took(limit, names, es, RenderAll(Mutated(es, key, value, true)), key, [value]) {
      ReadsBackFits(limit, names, es, key, value, true);
    }
    if ValidKey(key) && ValidValue(value) && LinesFit(limit, Mutated(es, key, value, true)) {
      MutatedReadsBack(limit, names, es, key, value, true);
    }
  }

  /** `add k v` appends the value v under k and leaves all other keys alone, under the same condition. */
  lemma AddTakesIffValid(limit: nat, names: seq<string>, es: seq<Entry>, key: string, value: string)
    requires WellFormed(names, es)
    ensures Took(limit, names, es, RenderAll(Mutated(es, key, value, false)), key, AllValues(es, key) + [value]) <==>
              ValidKey(key) && ValidValue(value) && LinesFit(limit, Mutated(es, key, value, false))
  {
    if Took(limit, names, es, RenderAll(Mutated(es, key, value, false)), key, AllValues(es, key) + [value]) {
      assert (AllValues(es, key) + [value])[|AllValues(es, key)|] == value;
      ReadsBackFits(limit, names, es, key, value, false);
    }
    if ValidKey(key) && ValidValue(value) && LinesFit(limit, Mutated(es, key, value, false)) {
      MutatedReadsBack(limit, names, es, key, value, false);
    }
  }

  /**
  `del k v` takes, and the file reads back as the entries that were kept, minus exactly the matching values, exactly
  when every line of the new file fits.
  */
  lemma DelTakesIffFits(limit: nat, names: seq<string>, es: seq<Entry>, key: string, value: string)
    requires WellFormed(names, es)
    ensures ParseWithin(limit, names, RenderAll(Kept(es, key, value))) == Ok(Kept(es, key, value)) <==>
              LinesFit(limit, Kept(es, key, value))
    ensures Took(limit, names, es, RenderAll(Kept(es, key, value)), key, Except(AllValues(es, key), value)) <==>
              LinesFit(limit, Kept(es, key, value))
  {
    var kept := Kept(es, key, value);
    KeptValues(es, key, value, key);
    RoundTripIffFits(limit, names, kept);
    WithinIff(limit, names, RenderAll(kept));
    RenderedFitsAlone(limit, kept);
    forall j
      ensures AllValues(kept, j) == if EqualFold(key, j) then Except(AllValues(es, j), value) else AllValues(es, j)
    {
      KeptValues(es, key, value, j);
    }
  }
}

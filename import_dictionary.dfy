/** The dictionary import script (scripts/import_dictionary.py): JSON items are
    normalised field by field, upserted into `words` filling only empty fields,
    linked to one dictionary, and the dictionary's `total_words` is recomputed.
    The whole import is one transaction: it is committed at the end, and an
    uncaught exception leaves the database as it was. */
module ImportDictionary {
  import opened Common

  // ---------------------------------------------------------------------------
  // JSON values and Python truthiness

  /** A value `json.load` produces (floating-point numbers are not modelled). */
  datatype Json =
    | JNull
    | JBool(b: bool)
    | JInt(n: int)
    | JStr(s: string)
    | JList(items: seq<Json>)
    | JObj(fields: map<string, Json>)

  /** Python truthiness: null, false, 0 and empty strings, lists and objects are false. */
  predicate Truthy(j: Json) {
    match j
    case JNull => false
    case JBool(b) => b
    case JInt(n) => n != 0
    case JStr(s) => s != ""
    case JList(items) => items != []
    case JObj(fields) => |fields| != 0
  }

  /** `item.get(key)`: the value under the key, or None. */
  function Get(item: map<string, Json>, key: string): Json {
    if key in item then item[key] else JNull
  }

  /** The position of the first truthy value. */
  function FirstTruthy(vals: seq<Json>): (r: Option<nat>)
    ensures r.Some? ==> (r.value < |vals| && Truthy(vals[r.value])
      && forall k :: 0 <= k < r.value ==> !Truthy(vals[k]))
    ensures r.None? <==> forall k :: 0 <= k < |vals| ==> !Truthy(vals[k])
  {
    if vals == [] then None
    else if Truthy(vals[0]) then Some(0)
    else match FirstTruthy(vals[1..])
      case None => None
      case Some(k) => Some(k + 1)
  }

  /** `v1 or v2 or ... or otherwise`: the first truthy value, else the last operand. */
  function Or(vals: seq<Json>, otherwise: Json): Json {
    match FirstTruthy(vals)
    case None => otherwise
    case Some(k) => vals[k]
  }

  // ---------------------------------------------------------------------------
  // String operations

  /** The characters `str.strip()` removes (`str.isspace`). */
  predicate PyWhitespace(c: char) {
    || c == ' ' || ('\t' <= c <= '\r') || ('\U{1c}' <= c <= '\U{1f}')
    || c == '\U{85}' || c == '\U{a0}' || c == '\U{1680}' || ('\U{2000}' <= c <= '\U{200a}')
    || c == '\U{2028}' || c == '\U{2029}' || c == '\U{202f}' || c == '\U{205f}' || c == '\U{3000}'
  }

  function StripLeft(s: string): (r: string)
    ensures |r| <= |s| && r == s[|s| - |r|..]
    ensures r == [] || !PyWhitespace(r[0])
    ensures forall i :: 0 <= i < |s| - |r| ==> PyWhitespace(s[i])
    decreases |s|
  {
    if s == [] || !PyWhitespace(s[0]) then s else StripLeft(s[1..])
  }

  function StripRight(s: string): (r: string)
    ensures |r| <= |s| && r == s[..|r|]
    ensures r == [] || !PyWhitespace(r[|r| - 1])
    ensures forall i :: |r| <= i < |s| ==> PyWhitespace(s[i])
    decreases |s|
  {
    if s == [] || !PyWhitespace(s[|s| - 1]) then s else StripRight(s[..|s| - 1])
  }

  /** `s.strip()`. */
  function Strip(s: string): string {
    StripRight(StripLeft(s))
  }

  /** `s` is `r` with only whitespace before position `a` and after `r`. */
  predicate Surrounds(s: string, r: string, a: int) {
    && 0 <= a <= |s| - |r| && s[a..a + |r|] == r
    && (forall i :: 0 <= i < a ==> PyWhitespace(s[i]))
    && (forall i :: a + |r| <= i < |s| ==> PyWhitespace(s[i]))
  }

  /** A stripped string neither starts nor ends with whitespace, and it is
      the input with only whitespace removed around it. */
  lemma StripMeaning(s: string)
    ensures var r := Strip(s);
      && (r == [] || (!PyWhitespace(r[0]) && !PyWhitespace(r[|r| - 1])))
      && exists a :: Surrounds(s, r, a)
  {
    var l := StripLeft(s);
    var r := StripRight(l);
    var a := |s| - |l|;
    assert s[a..a + |r|] == r;
    forall i | a + |r| <= i < |s|
      ensures PyWhitespace(s[i])
    {
      assert s[i] == l[i - a];
    }
    if r != [] {
      assert r[0] == l[0];
    }
    assert Surrounds(s, r, a);
  }

  /** Stripping twice is stripping once. */
  lemma StripIdempotent(s: string)
    ensures Strip(Strip(s)) == Strip(s)
  {
    var r := Strip(s);
    if r != [] {
      assert r[0] == StripLeft(s)[0];
    }
    assert StripLeft(r) == r;
  }

  /** `s.startswith(p)`. */
  predicate StartsWith(s: string, p: string) {
    |p| <= |s| && s[..|p|] == p
  }

  /** `sep.join(parts)`. */
  function Join(sep: string, parts: seq<string>): string
    decreases |parts|
  {
    if parts == [] then ""
    else if |parts| == 1 then parts[0]
    else parts[0] + sep + Join(sep, parts[1..])
  }

  function DigitChar(d: int): char
    requires 0 <= d <= 9
  {
    ('0' as int + d) as char
  }

  /** The decimal text MySQL stores for an integer bound to a text column. */
  function DecimalText(n: int): string
    decreases if n < 0 then 1 - n else n
  {
    if n < 0 then "-" + DecimalText(-n)
    else if n < 10 then [DigitChar(n)]
    else DecimalText(n / 10) + [DigitChar(n % 10)]
  }

  // ---------------------------------------------------------------------------
  // Item normalisation

  /** A parameter bound into the INSERT: SQL NULL, text, or a Python value the
      connector cannot convert (a list or a dict), which raises a database error. */
  datatype SqlParam = Null | Text(s: string) | Unconvertible

  function ToSql(j: Json): SqlParam {
    match j
    case JNull => Null
    case JBool(b) => Text(if b then "1" else "0")
    case JInt(n) => Text(DecimalText(n))
    case JStr(s) => Text(s)
    case JList(_) => Unconvertible
    case JObj(_) => Unconvertible
  }

  /** A stored text column: None is NULL. */
  function Stored(p: SqlParam): Option<string>
    requires !p.Unconvertible?
  {
    if p.Text? then Some(p.s) else None
  }

  /** The values one item supplies for the four optional columns. */
  datatype WordValues = WordValues(phonetic: Option<string>, meaningCn: Option<string>,
                                   meaningEn: Option<string>, example: Option<string>)

  /** What the loop does with one item: skip it (no word, or a database error
      on insert), stop the script with an exception, or upsert the word. */
  datatype ItemOutcome = Skipped | Unstorable | Crash | Ready(word: string, values: WordValues)

  /** The word text: `item.get('word') or item.get('headWord')`. */
  function WordField(item: map<string, Json>): Json {
    Or([Get(item, "word"), Get(item, "headWord")], JNull)
  }

  /** The phonetic before wrapping: the first truthy of four keys, else ''. */
  function PhoneticField(item: map<string, Json>): Json {
    Or([Get(item, "phonetic"), Get(item, "usphone"), Get(item, "ukphone"), Get(item, "phonetic_symbol")], JStr(""))
  }

  /** A non-empty phonetic not starting with '/' is wrapped in slashes;
      brackets are kept. */
  function WrapPhonetic(p: string): (r: string)
    ensures r == "" || StartsWith(r, "/")
    ensures p == "" || StartsWith(p, "/") ==> r == p
    ensures p != "" && !StartsWith(p, "/") ==> r == "/" + p + "/"
  {
    if p != "" && !StartsWith(p, "/") then "/" + p + "/" else p
  }

  /** The meaning before joining: `trans or meaning or mean or ''`. */
  function MeaningField(item: map<string, Json>): Json {
    Or([Get(item, "trans"), Get(item, "meaning"), Get(item, "mean")], JStr(""))
  }

  predicate AllStrings(items: seq<Json>) {
    forall k :: 0 <= k < |items| ==> items[k].JStr?
  }

  /** The strings of a list meaning. */
  function Texts(items: seq<Json>): seq<string>
    requires AllStrings(items)
  {
    seq(|items|, k requires 0 <= k < |items| => items[k].s)
  }

  /** The example sentence, or None when the lookup raises: the first element
      of a truthy `examples` (its `sentence` when it is a dict, itself when it
      is a string, '' otherwise). A string `examples` yields its first
      character; any other truthy non-list cannot be indexed. */
  function ExampleField(item: map<string, Json>): Option<Json> {
    var examples := Get(item, "examples");
    if !Truthy(examples) then Some(JStr(""))
    else match examples
      case JList(items) =>
        var ex := items[0];
        if ex.JObj? then Some(if "sentence" in ex.fields then ex.fields["sentence"] else JStr(""))
        else if ex.JStr? then Some(ex)
        else Some(JStr(""))
      case JStr(s) => Some(JStr([s[0]]))
      case _ => None
  }

  /** One item of the file, in the order the script computes its fields. */
  /** The meaning as stored: a list is `"; ".join`ed, which raises (None)
      when an element is not a string; any other value is kept. */
  function MeaningText(meaning: Json): Option<Json> {
    if !meaning.JList? then Some(meaning)
    else if AllStrings(meaning.items) then Some(JStr(Join("; ", Texts(meaning.items))))
    else None
  }

  /** The English meaning: `definition or ''`. */
  function DefinitionField(item: map<string, Json>): Json {
    Or([Get(item, "definition")], JStr(""))
  }

  /** The four values bound to the insert; None when one cannot be bound. */
  function BoundValues(phonetic: string, meaningCn: Json, meaningEn: Json, example: Json): Option<WordValues> {
    var p0, p1, p2, p3 := ToSql(JStr(phonetic)), ToSql(meaningCn), ToSql(meaningEn), ToSql(example);
    if p0.Unconvertible? || p1.Unconvertible? || p2.Unconvertible? || p3.Unconvertible? then None
    else Some(WordValues(Stored(p0), Stored(p1), Stored(p2), Stored(p3)))
  }

  function Normalize(item: Json): (r: ItemOutcome)
    ensures r.Ready? ==> (item.JObj? && Truthy(WordField(item.fields)) && WordField(item.fields).JStr?
      && r.word == Strip(WordField(item.fields).s))
    ensures r.Ready? ==> (r.values.phonetic.Some? &&
      (r.values.phonetic.value == "" || StartsWith(r.values.phonetic.value, "/")))
    ensures item.JObj? && !Truthy(WordField(item.fields)) ==> r == Skipped
  {
    if !item.JObj? then Crash
    else
      var fields := item.fields;
      var wordText := WordField(fields);
      if !Truthy(wordText) then Skipped
      else if !wordText.JStr? then Crash
      else
        var word := Strip(wordText.s);
        var phonetic := PhoneticField(fields);
        if Truthy(phonetic) && !phonetic.JStr? then Crash
        else match MeaningText(MeaningField(fields))
          case None => Crash
          case Some(meaningCn) =>
            match ExampleField(fields)
            case None => Crash
            case Some(example) =>
              match BoundValues(WrapPhonetic(phonetic.s), meaningCn, DefinitionField(fields), example)
              case None => Unstorable
              case Some(values) => Ready(word, values)
  }

  /** An item with neither `word` nor `headWord` (or only empty ones) is skipped. */
  lemma NoWordSkipped(fields: map<string, Json>)
    requires !Truthy(Get(fields, "word")) && !Truthy(Get(fields, "headWord"))
    ensures Normalize(JObj(fields)) == Skipped
  {
  }

  /** Two string meanings are joined with "; ". */
  lemma JoinExample()
    ensures Join("; ", Texts([JStr("n. apple"), JStr("n. apple tree")])) == "n. apple; n. apple tree"
  {
    assert Texts([JStr("n. apple"), JStr("n. apple tree")]) == ["n. apple", "n. apple tree"];
  }

  /** The example: a dict's `sentence`, a string element itself, a string
      `examples` its first character. */
  lemma ExampleCases(s: string)
    requires s != ""
    ensures ExampleField(map["examples" := JList([JObj(map["sentence" := JStr(s)])])]) == Some(JStr(s))
    ensures ExampleField(map["examples" := JList([JStr(s)])]) == Some(JStr(s))
    ensures ExampleField(map["examples" := JList([JInt(1)])]) == Some(JStr(""))
    ensures ExampleField(map["examples" := JStr(s)]) == Some(JStr([s[0]]))
    ensures ExampleField(map["examples" := JObj(map["a" := JInt(1)])]).None?
  {
    assert Truthy(JObj(map["a" := JInt(1)])) by {
      assert "a" in map["a" := JInt(1)];
    }
  }

  // ---------------------------------------------------------------------------
  // What a stored item carries, in terms of the item's own keys

  /** The keys the meaning is looked up under, in order. */
  const MeaningKeys: seq<string> := ["trans", "meaning", "mean"]

  /** A normalized item's values, taken apart. */
  lemma ReadyParts(fields: map<string, Json>)
    requires Normalize(JObj(fields)).Ready?
    ensures var v := Normalize(JObj(fields)).values;
      && MeaningText(MeaningField(fields)).Some? && ExampleField(fields).Some?
      && v.meaningCn == Stored(ToSql(MeaningText(MeaningField(fields)).value))
      && v.meaningEn == Stored(ToSql(DefinitionField(fields)))
      && v.example == Stored(ToSql(ExampleField(fields).value))
  {
  }

  /** The meaning is the first of trans, meaning and mean that is truthy:
      a string is stored as it is, a list of strings joined with "; ". */
  lemma StoredMeaning(fields: map<string, Json>, k: nat)
    requires k < |MeaningKeys|
    requires forall j :: 0 <= j < k ==> !Truthy(Get(fields, MeaningKeys[j]))
    requires Truthy(Get(fields, MeaningKeys[k]))
    ensures var r := Normalize(JObj(fields)); var m := Get(fields, MeaningKeys[k]);
      r.Ready? ==>
        && (m.JStr? ==> r.values.meaningCn == Some(m.s))
        && (m.JList? ==> AllStrings(m.items) && r.values.meaningCn == Some(Join("; ", Texts(m.items))))
  {
    var vals := [Get(fields, "trans"), Get(fields, "meaning"), Get(fields, "mean")];
    assert forall j :: 0 <= j < 3 ==> vals[j] == Get(fields, MeaningKeys[j]);
    var f := FirstTruthy(vals);
    assert f.Some? && f.value == k;
    assert MeaningField(fields) == Get(fields, MeaningKeys[k]);
    if Normalize(JObj(fields)).Ready? {
      ReadyParts(fields);
    }
  }

  /** With none of trans, meaning and mean truthy the meaning is ''. */
  lemma NoMeaningStoredEmpty(fields: map<string, Json>)
    requires forall j :: 0 <= j < |MeaningKeys| ==> !Truthy(Get(fields, MeaningKeys[j]))
    ensures var r := Normalize(JObj(fields));
      r.Ready? ==> r.values.meaningCn == Some("")
  {
    var vals := [Get(fields, "trans"), Get(fields, "meaning"), Get(fields, "mean")];
    assert forall j :: 0 <= j < 3 ==> vals[j] == Get(fields, MeaningKeys[j]);
    assert FirstTruthy(vals).None?;
    if Normalize(JObj(fields)).Ready? {
      ReadyParts(fields);
    }
  }

  /** `"; ".join` of a list holding a non-string raises, which stops the script. */
  lemma NonStringMeaningRaises(fields: map<string, Json>, k: nat)
    requires k < |MeaningKeys|
    requires forall j :: 0 <= j < k ==> !Truthy(Get(fields, MeaningKeys[j]))
    requires Get(fields, MeaningKeys[k]).JList? && Truthy(Get(fields, MeaningKeys[k]))
    requires !AllStrings(Get(fields, MeaningKeys[k]).items)
    requires Truthy(WordField(fields))
    ensures Normalize(JObj(fields)) == Crash
  {
    var vals := [Get(fields, "trans"), Get(fields, "meaning"), Get(fields, "mean")];
    assert forall j :: 0 <= j < 3 ==> vals[j] == Get(fields, MeaningKeys[j]);
    var f := FirstTruthy(vals);
    assert f.Some? && f.value == k;
    assert MeaningField(fields) == Get(fields, MeaningKeys[k]);
  }

  /** The English meaning is `definition or ''`. */
  lemma StoredDefinition(fields: map<string, Json>)
    ensures var r := Normalize(JObj(fields)); var d := Get(fields, "definition");
      r.Ready? ==>
        && (d.JStr? ==> r.values.meaningEn == Some(d.s))
        && (!Truthy(d) ==> r.values.meaningEn == Some(""))
  {
    if Normalize(JObj(fields)).Ready? {
      ReadyParts(fields);
    }
  }

  /** The example is taken from the first element of a truthy `examples`
      list: a dict gives its `sentence` ('' without one), a string gives
      itself, anything else gives ''; without examples it is ''. */
  lemma StoredExample(fields: map<string, Json>)
    ensures var r := Normalize(JObj(fields)); var ex := Get(fields, "examples");
      r.Ready? ==>
        && (!Truthy(ex) ==> r.values.example == Some(""))
        && (ex.JList? && ex.items != [] ==>
              var first := ex.items[0];
              && (first.JStr? ==> r.values.example == Some(first.s))
              && (first.JObj? && "sentence" in first.fields && first.fields["sentence"].JStr? ==>
                    r.values.example == Some(first.fields["sentence"].s))
              && (first.JObj? && "sentence" !in first.fields ==> r.values.example == Some(""))
              && (!first.JObj? && !first.JStr? ==> r.values.example == Some("")))
  {
    if Normalize(JObj(fields)).Ready? {
      ReadyParts(fields);
      var ex := Get(fields, "examples");
      if ex.JList? && ex.items != [] {
        assert Truthy(ex);
      }
    }
  }

  /** An item whose word is a non-empty string and whose every value is a
      string or null is stored, under its stripped word. */
  lemma StringItemStored(fields: map<string, Json>, w: string)
    requires WordField(fields) == JStr(w) && w != ""
    requires forall key :: key in fields ==> fields[key].JStr? || fields[key].JNull?
    ensures Normalize(JObj(fields)).Ready?
    ensures Normalize(JObj(fields)).word == Strip(w)
  {
    OrOfStrings([Get(fields, "phonetic"), Get(fields, "usphone"), Get(fields, "ukphone"), Get(fields, "phonetic_symbol")], JStr(""));
    OrOfStrings([Get(fields, "trans"), Get(fields, "meaning"), Get(fields, "mean")], JStr(""));
    OrOfStrings([Get(fields, "definition")], JStr(""));
    var phonetic := PhoneticField(fields);
    var meaning := MeaningField(fields);
    assert MeaningText(meaning) == Some(meaning);
    var ex := Get(fields, "examples");
    assert ex.JStr? || ex.JNull?;
    var example := ExampleField(fields);
    assert example.Some? && example.value.JStr?;
    assert BoundValues(WrapPhonetic(phonetic.s), meaning, DefinitionField(fields), example.value).Some?;
  }

  /** `or` over strings and nulls, ending in a string, gives a string. */
  lemma OrOfStrings(vals: seq<Json>, otherwise: Json)
    requires forall k :: 0 <= k < |vals| ==> vals[k].JStr? || vals[k].JNull?
    requires otherwise.JStr?
    ensures Or(vals, otherwise).JStr?
  {
  }

  // ---------------------------------------------------------------------------
  // The database

  /** A row of `words`; None is NULL. */
  datatype WordRow = WordRow(id: int, phonetic: Option<string>, meaningCn: Option<string>,
                             meaningEn: Option<string>, example: Option<string>)

  /** A row of `word_dictionary_tags`. */
  datatype Tag = Tag(wordId: int, dictionaryId: int)

  /** A row of `dictionaries`; the model gives the dictionary in row k - 1
      the id k. */
  datatype DictRow = DictRow(name: string, description: Option<string>, totalWords: int)

  /** The tables one file touches: words keyed by their text, the next word
      id, and the tag links. */
  datatype Db = Db(words: map<string, WordRow>, nextWordId: int, tags: set<Tag>)

  /** `IF(col IS NULL OR col = '', VALUES(col), col)`. */
  function Fill(current: Option<string>, incoming: Option<string>): Option<string> {
    if current.None? || current == Some("") then incoming else current
  }

  /** A stored value is kept: the four text columns of a row once non-empty stay so. */
  predicate Keeps(before: WordRow, after: WordRow) {
    && after.id == before.id
    && (before.phonetic.Some? && before.phonetic != Some("") ==> after.phonetic == before.phonetic)
    && (before.meaningCn.Some? && before.meaningCn != Some("") ==> after.meaningCn == before.meaningCn)
    && (before.meaningEn.Some? && before.meaningEn != Some("") ==> after.meaningEn == before.meaningEn)
    && (before.example.Some? && before.example != Some("") ==> after.example == before.example)
  }

  /** An empty stored value (NULL or '') takes the incoming one. */
  predicate TakesIfEmpty(before: Option<string>, incoming: Option<string>, after: Option<string>) {
    before.None? || before == Some("") ==> after == incoming
  }

  /** The row after the upsert: a new row with the next id, or the existing
      row with its non-empty fields kept and its empty fields filled. */
  function Merged(current: Option<WordRow>, nextId: int, v: WordValues): (r: WordRow)
    ensures current.None? ==> r == WordRow(nextId, v.phonetic, v.meaningCn, v.meaningEn, v.example)
    ensures current.Some? ==> Keeps(current.value, r)
    ensures current.Some? ==>
      && TakesIfEmpty(current.value.phonetic, v.phonetic, r.phonetic)
      && TakesIfEmpty(current.value.meaningCn, v.meaningCn, r.meaningCn)
      && TakesIfEmpty(current.value.meaningEn, v.meaningEn, r.meaningEn)
      && TakesIfEmpty(current.value.example, v.example, r.example)
  {
    match current
    case None => WordRow(nextId, v.phonetic, v.meaningCn, v.meaningEn, v.example)
    case Some(row) =>
      WordRow(row.id, Fill(row.phonetic, v.phonetic), Fill(row.meaningCn, v.meaningCn),
              Fill(row.meaningEn, v.meaningEn), Fill(row.example, v.example))
  }

  /** INSERT ... ON DUPLICATE KEY UPDATE on the word text. The model draws a
      new id only for a new word; where the database leaves gaps in the ids
      is not modelled. */
  function Upsert(words: map<string, WordRow>, nextId: int, word: string, v: WordValues)
    : (map<string, WordRow>, int)
  {
    var current := if word in words then Some(words[word]) else None;
    (words[word := Merged(current, nextId, v)], if word in words then nextId else nextId + 1)
  }

  /** The upsert never overwrites a non-empty field. */
  lemma UpsertKeeps(words: map<string, WordRow>, nextId: int, word: string, v: WordValues)
    ensures forall w :: w in words ==> (w in Upsert(words, nextId, word, v).0
      && Keeps(words[w], Upsert(words, nextId, word, v).0[w]))
  {
  }

  /** Upserting the same values twice is the same as once. */
  lemma UpsertIdempotent(words: map<string, WordRow>, nextId: int, word: string, v: WordValues)
    ensures var once := Upsert(words, nextId, word, v);
      Upsert(once.0, once.1, word, v) == once
  {
    var once := Upsert(words, nextId, word, v);
    var row := once.0[word];
    assert once.0[word := row] == once.0;
  }

  /** The effect of one normalised item: None when it raised. */
  function ApplyOutcome(db: Db, o: ItemOutcome, dictId: int): Option<Db> {
    match o
    case Crash => None
    case Skipped => Some(db)
    case Unstorable => Some(db)
    case Ready(word, v) =>
      var up := Upsert(db.words, db.nextWordId, word, v);
      Some(Db(up.0, up.1, db.tags + {Tag(up.0[word].id, dictId)}))
  }

  /** The effect of the normalised items, in order: None when one of them raised. */
  function ApplyOutcomes(db: Db, outs: seq<ItemOutcome>, dictId: int): Option<Db>
    decreases |outs|
  {
    if outs == [] then Some(db)
    else match ApplyOutcome(db, outs[0], dictId)
      case None => None
      case Some(d) => ApplyOutcomes(d, outs[1..], dictId)
  }

  /** The items of a file, normalised one by one. */
  function Outcomes(items: seq<Json>): (r: seq<ItemOutcome>)
    ensures |r| == |items|
    ensures forall k :: 0 <= k < |items| ==> r[k] == Normalize(items[k])
    decreases |items|
  {
    if items == [] then [] else [Normalize(items[0])] + Outcomes(items[1..])
  }

  /** How many items reach the upsert (the script's `local_added`). */
  function ReadyCount(outs: seq<ItemOutcome>): nat
    decreases |outs|
  {
    if outs == [] then 0
    else (if outs[0].Ready? then 1 else 0) + ReadyCount(outs[1..])
  }

  /** An item applied twice has the effect of one. */
  lemma ApplyOutcomeIdempotent(db: Db, o: ItemOutcome, dictId: int)
    requires ApplyOutcome(db, o, dictId).Some?
    ensures var once := ApplyOutcome(db, o, dictId).value;
      ApplyOutcome(once, o, dictId) == Some(once)
  {
    if o.Ready? {
      UpsertIdempotent(db.words, db.nextWordId, o.word, o.values);
    }
  }

  /** Across a file, non-empty fields are never overwritten, word ids never
      change, links are only added and only for this dictionary, and every word
      that reached the upsert is linked. */
  lemma {:induction false} ApplyOutcomesMeaning(db: Db, outs: seq<ItemOutcome>, dictId: int)
    requires ApplyOutcomes(db, outs, dictId).Some?
    ensures var r := ApplyOutcomes(db, outs, dictId).value;
      && (forall w :: w in db.words ==> w in r.words && Keeps(db.words[w], r.words[w]))
      && db.tags <= r.tags
      && (forall t :: t in r.tags && t !in db.tags ==> t.dictionaryId == dictId)
      && (forall k :: 0 <= k < |outs| && outs[k].Ready? ==>
            outs[k].word in r.words && Tag(r.words[outs[k].word].id, dictId) in r.tags)
    decreases |outs|
  {
    if outs != [] {
      var d := ApplyOutcome(db, outs[0], dictId).value;
      var rest := outs[1..];
      ApplyOutcomesMeaning(d, rest, dictId);
      var r := ApplyOutcomes(db, outs, dictId).value;
      assert r == ApplyOutcomes(d, rest, dictId).value;
      if outs[0].Ready? {
        UpsertKeeps(db.words, db.nextWordId, outs[0].word, outs[0].values);
      }
      forall k | 0 <= k < |outs| && outs[k].Ready?
        ensures outs[k].word in r.words && Tag(r.words[outs[k].word].id, dictId) in r.tags
      {
        if k > 0 {
          assert outs[k] == rest[k - 1];
        }
      }
    }
  }

  /** Where a readable file's items come from, and what iterating it does:
      a list gives its items; an empty object or string gives nothing; any
      other value raises on the first item or cannot be iterated. */
  datatype FileContent = Unreadable | Parsed(value: Json)

  /** The effect of one file: an unreadable file changes nothing. */
  function ApplyFile(db: Db, file: FileContent, dictId: int): Option<Db> {
    match file
    case Unreadable => Some(db)
    case Parsed(JList(items)) => ApplyOutcomes(db, Outcomes(items), dictId)
    case Parsed(JObj(fields)) => if |fields| == 0 then Some(db) else None
    case Parsed(JStr(s)) => if s == [] then Some(db) else None
    case Parsed(_) => None
  }

  /** The items the loop of `process_file` walks through. */
  function FileItems(file: FileContent): seq<Json> {
    if file.Parsed? && file.value.JList? then file.value.items else []
  }

  /** The effect of the files, in order: None when one of them raises. */
  function ApplyFiles(db: Db, files: seq<FileContent>, dictId: int): Option<Db>
    decreases |files|
  {
    if files == [] then Some(db)
    else match ApplyFile(db, files[0], dictId)
      case None => None
      case Some(d) => ApplyFiles(d, files[1..], dictId)
  }

  /** The script's `total_added` over the files: the items of each file that
      reached the upsert. */
  function AddedCount(files: seq<FileContent>): nat
    decreases |files|
  {
    if files == [] then 0 else ReadyCount(Outcomes(FileItems(files[0]))) + AddedCount(files[1..])
  }

  /** `SELECT id FROM dictionaries WHERE name = %s`: the first row with the name. */
  function FindDict(dicts: seq<DictRow>, name: string): (r: Option<nat>)
    ensures r.Some? ==> r.value < |dicts| && dicts[r.value].name == name
    ensures r.None? <==> forall k :: 0 <= k < |dicts| ==> dicts[k].name != name
  {
    if dicts == [] then None
    else if dicts[0].name == name then Some(0)
    else match FindDict(dicts[1..], name)
      case None => None
      case Some(k) => Some(k + 1)
  }

  /** The lookup by name depends on the names only. */
  lemma {:induction false} FindDictByNames(a: seq<DictRow>, b: seq<DictRow>, name: string)
    requires |a| == |b| && forall k :: 0 <= k < |a| ==> a[k].name == b[k].name
    ensures FindDict(a, name) == FindDict(b, name)
    decreases |a|
  {
    if a != [] {
      FindDictByNames(a[1..], b[1..], name);
    }
  }

  /** The dictionary rows after the "ensure" step: a found dictionary gets a
      truthy new description; a missing one is inserted with
      `description or name` and zero words. */
  function EnsureDict(dicts: seq<DictRow>, name: string, description: Option<string>): (r: seq<DictRow>)
    ensures |r| >= |dicts| && FindDict(r, name).Some?
    ensures FindDict(dicts, name).None? ==>
      r == dicts + [DictRow(name, if NonEmpty(description) then description else Some(name), 0)]
    ensures FindDict(dicts, name).Some? ==> |r| == |dicts| && FindDict(r, name) == FindDict(dicts, name)
    ensures FindDict(dicts, name).Some? ==>
      var k := FindDict(dicts, name).value;
      && (forall j :: 0 <= j < |dicts| && j != k ==> r[j] == dicts[j])
      && r[k].name == dicts[k].name && r[k].totalWords == dicts[k].totalWords
      && r[k].description == (if NonEmpty(description) then description else dicts[k].description)
  {
    match FindDict(dicts, name)
    case Some(k) =>
      var r := if NonEmpty(description) then dicts[k := dicts[k].(description := description)] else dicts;
      FindDictByNames(r, dicts, name);
      r
    case None =>
      var r := dicts + [DictRow(name, if NonEmpty(description) then description else Some(name), 0)];
      assert r[|dicts|].name == name;
      r
  }

  /** `SELECT COUNT(*) FROM word_dictionary_tags WHERE dictionary_id = %s`. */
  function TagCount(tags: set<Tag>, dictId: int): nat {
    |set t | t in tags && t.dictionaryId == dictId|
  }

  /** The link-count additivity behind the script's `total_linked`. */
  lemma DifferenceAdds(a: set<Tag>, b: set<Tag>, c: set<Tag>)
    requires a <= b <= c
    ensures |c - a| == |c - b| + |b - a|
  {
    assert c - a == (c - b) + (b - a);
    assert (c - b) * (b - a) == {};
  }

  /** The result of an import. */
  datatype ImportOutcome = Committed(dictId: int, added: nat, linked: nat) | Crashed

  class DictionaryDb {
    var words: map<string, WordRow>
    var nextWordId: int
    var tags: set<Tag>
    var dictionaries: seq<DictRow>

    constructor ()
      ensures words == map[] && nextWordId == 1 && tags == {} && dictionaries == []
    {
      words := map[];
      nextWordId := 1;
      tags := {};
      dictionaries := [];
    }

    function State(): Db
      reads this
    {
      Db(words, nextWordId, tags)
    }

    /** One normalised item: upsert the word, look its id up, and link it to
        the dictionary; `isNew` says whether the link did not exist before
        (a duplicate link is ignored). */
    method StoreWord(word: string, values: WordValues, dictId: int) returns (isNew: bool)
      modifies this
      ensures State() == ApplyOutcome(old(State()), Ready(word, values), dictId).value
      ensures word in words && (isNew <==> Tag(words[word].id, dictId) !in old(tags))
      ensures isNew ==> |tags - old(tags)| == 1
      ensures !isNew ==> tags == old(tags)
      ensures dictionaries == old(dictionaries)
    {
      var up := Upsert(words, nextWordId, word, values);
      words, nextWordId := up.0, up.1;
      var tag := Tag(words[word].id, dictId);
      isNew := tag !in tags;
      if isNew {
        assert (tags + {tag}) - tags == {tag};
      } else {
        assert tags + {tag} == tags;
      }
      tags := tags + {tag};
    }

    /** One normalised item that did not raise: a skipped or unstorable item
        changes nothing; a ready one is stored and linked. */
    method ProcessOutcome(o: ItemOutcome, dictId: int, ghost base: set<Tag>) returns (addedOne: nat, linkedOne: nat)
      requires !o.Crash? && base <= tags
      modifies this
      ensures Some(State()) == ApplyOutcome(old(State()), o, dictId)
      ensures addedOne == (if o.Ready? then 1 else 0)
      ensures old(tags) <= tags && linkedOne == |tags - old(tags)|
      ensures |tags - base| == |old(tags) - base| + linkedOne
      ensures dictionaries == old(dictionaries)
    {
      addedOne, linkedOne := 0, 0;
      if o.Ready? {
        var isNew := StoreWord(o.word, o.values, dictId);
        addedOne := 1;
        linkedOne := if isNew then 1 else 0;
      }
      DifferenceAdds(base, old(tags), tags);
    }

    /** The loop of process_file over the normalised items: `added` counts
        upserts and `linked` counts exactly the links that were new. */
    method ProcessOutcomes(outs: seq<ItemOutcome>, dictId: int) returns (added: nat, linked: nat, crashed: bool)
      modifies this
      ensures crashed <==> ApplyOutcomes(old(State()), outs, dictId).None?
      ensures !crashed ==>
        && State() == ApplyOutcomes(old(State()), outs, dictId).value
        && added == ReadyCount(outs)
        && old(tags) <= tags
        && linked == |tags - old(tags)|
      ensures dictionaries == old(dictionaries)
    {
      added, linked, crashed := 0, 0, false;
      ghost var result := ApplyOutcomes(State(), outs, dictId);
      ghost var start := tags;
      var i := 0;
      while i < |outs|
        invariant 0 <= i <= |outs|
        invariant ApplyOutcomes(State(), outs[i..], dictId) == result
        invariant added + ReadyCount(outs[i..]) == ReadyCount(outs)
        invariant start <= tags && linked == |tags - start|
        invariant dictionaries == old(dictionaries)
      {
        assert outs[i..][1..] == outs[i + 1..];
        if outs[i].Crash? {
          crashed := true;
          return;
        }
        var addedOne, linkedOne := ProcessOutcome(outs[i], dictId, start);
        added, linked := added + addedOne, linked + linkedOne;
        i := i + 1;
      }
    }

    /** process_file: an unreadable file adds nothing; a list is processed item
        by item; iterating any other value either yields nothing (an empty
        object or string) or raises. */
    method ProcessFile(file: FileContent, dictId: int) returns (added: nat, linked: nat, crashed: bool)
      modifies this
      ensures crashed <==> ApplyFile(old(State()), file, dictId).None?
      ensures !crashed ==>
        && State() == ApplyFile(old(State()), file, dictId).value
        && added == ReadyCount(Outcomes(FileItems(file)))
        && old(tags) <= tags
        && linked == |tags - old(tags)|
      ensures dictionaries == old(dictionaries)
    {
      added, linked, crashed := 0, 0, false;
      if file.Unreadable? {
        return;
      }
      match file.value {
        case JList(items) =>
          added, linked, crashed := ProcessOutcomes(Outcomes(items), dictId);
        case JObj(fields) =>
          crashed := |fields| != 0;
        case JStr(s) =>
          crashed := s != [];
        case _ =>
          crashed := true;
      }
    }

    /** The files loop of import_words: each file in turn until one raises;
        the totals of added and newly linked words. */
    method ProcessFiles(files: seq<FileContent>, dictId: int) returns (added: nat, linked: nat, crashed: bool)
      modifies this
      ensures crashed <==> ApplyFiles(old(State()), files, dictId).None?
      ensures !crashed ==>
        && State() == ApplyFiles(old(State()), files, dictId).value
        && added == AddedCount(files)
        && old(tags) <= tags
        && linked == |tags - old(tags)|
      ensures dictionaries == old(dictionaries)
    {
      added, linked, crashed := 0, 0, false;
      ghost var result := ApplyFiles(State(), files, dictId);
      ghost var start := tags;
      var i := 0;
      while i < |files|
        invariant 0 <= i <= |files|
        invariant ApplyFiles(State(), files[i..], dictId) == result
        invariant added + AddedCount(files[i..]) == AddedCount(files)
        invariant start <= tags && linked == |tags - start|
        invariant dictionaries == old(dictionaries)
      {
        ghost var before := tags;
        assert files[i..][0] == files[i] && files[i..][1..] == files[i + 1..];
        var addedOne, linkedOne, crashedOne := ProcessFile(files[i], dictId);
        if crashedOne {
          crashed := true;
          return;
        }
        DifferenceAdds(start, before, tags);
        added, linked := added + addedOne, linked + linkedOne;
        i := i + 1;
      }
    }

    /** The "ensure" step of import_words: find the dictionary by name,
        updating its description, or insert it; its id is its row number. */
    method EnsureDictionary(name: string, description: Option<string>) returns (dictId: int)
      modifies this
      ensures dictionaries == EnsureDict(old(dictionaries), name, description)
      ensures dictId == FindDict(dictionaries, name).value + 1
      ensures 1 <= dictId <= |dictionaries| && dictionaries[dictId - 1].name == name
      ensures words == old(words) && nextWordId == old(nextWordId) && tags == old(tags)
    {
      dictionaries := EnsureDict(dictionaries, name, description);
      dictId := FindDict(dictionaries, name).value + 1;
    }

    /** The dictionary's `total_words` becomes the number of its links. */
    method UpdateTotal(dictId: int)
      requires 1 <= dictId <= |dictionaries|
      modifies this
      ensures dictionaries == old(dictionaries)[dictId - 1 := old(dictionaries)[dictId - 1].(totalWords := TagCount(tags, dictId))]
      ensures words == old(words) && nextWordId == old(nextWordId) && tags == old(tags)
    {
      dictionaries := dictionaries[dictId - 1 := dictionaries[dictId - 1].(totalWords := TagCount(tags, dictId))];
    }

    /** import_words: ensure the dictionary, process every file, recompute
        `total_words` from the links and commit; an exception from any item
        leaves every table as it was. */
    method ImportWords(files: seq<FileContent>, name: string, description: Option<string>)
      returns (r: ImportOutcome)
      modifies this
      ensures var dicts := EnsureDict(old(dictionaries), name, description);
        var dictId := FindDict(dicts, name).value + 1;
        var result := ApplyFiles(old(State()), files, dictId);
        && (r.Crashed? <==> result.None?)
        && (r.Crashed? ==> State() == old(State()) && dictionaries == old(dictionaries))
        && (r.Committed? ==>
              && r.dictId == dictId
              && State() == result.value
              && dictionaries == dicts[dictId - 1 := dicts[dictId - 1].(totalWords := TagCount(tags, dictId))]
              && r.added == AddedCount(files)
              && old(tags) <= tags
              && r.linked == |tags - old(tags)|)
    {
      var savedWords, savedNext, savedTags, savedDicts := words, nextWordId, tags, dictionaries;
      var dictId := EnsureDictionary(name, description);
      var added, linked, crashed := ProcessFiles(files, dictId);
      if crashed {
        words, nextWordId, tags, dictionaries := savedWords, savedNext, savedTags, savedDicts;
        return Crashed;
      }
      UpdateTotal(dictId);
      r := Committed(dictId, added, linked);
    }
  }
}

/**
 * `normalize_section_name`: resolves a free-text section name against the
 * available section names by exact match, then an alias table, then the best
 * similarity ratio strictly above 0.6.
 */
module SectionResolver {
  import opened Wrappers
  import opened Json
  import opened Text
  import opened Similarity

  /** The alias table, in its written order: a variant and the canonical name it stands for. */
  const AliasTable: seq<(string, string)> := [
    ("skill", "skills"),
    ("experience", "experiences"),
    ("exp", "experiences"),
    ("work", "experiences"),
    ("edu", "education"),
    ("school", "education"),
    ("project", "projects"),
    ("cert", "certificates"),
    ("certification", "certificates"),
    ("certs", "certificates"),
    ("pub", "publications"),
    ("publication", "publications"),
    ("papers", "publications"),
    ("lang", "languages"),
    ("language", "languages"),
    ("rec", "recommendations"),
    ("recommendation", "recommendations"),
    ("refs", "recommendations"),
    ("references", "recommendations"),
    ("contact", "contact"),
    ("contacts", "contact"),
    ("summary", "summary"),
    ("about", "summary"),
    ("custom", "custom"),
    ("other", "custom"),
    ("additional", "custom")
  ]

  /** `dict.get(key)` on a table given as its entries: the first entry for `key` from entry `i` on. */
  function EntryFrom(table: seq<(string, string)>, key: string, i: nat): Option<string>
    requires i <= |table|
    decreases |table| - i
  {
    if i == |table| then None
    else if table[i].0 == key then Some(table[i].1)
    else EntryFrom(table, key, i + 1)
  }

  /** Entry `l` is the first entry for `key` in `table` from entry `i` on. */
  predicate FirstEntry(table: seq<(string, string)>, key: string, i: nat, l: nat)
  {
    i <= l < |table| && table[l].0 == key && forall m :: i <= m < l ==> table[m].0 != key
  }

  /** The lookup finds the first entry for the key, and nothing only when there is none. */
  lemma {:induction false} EntryFromIsFirst(table: seq<(string, string)>, key: string, i: nat)
    requires i <= |table|
    ensures EntryFrom(table, key, i).None? ==> forall l :: i <= l < |table| ==> table[l].0 != key
    ensures EntryFrom(table, key, i).Some? ==>
      exists l: nat :: FirstEntry(table, key, i, l) && table[l].1 == EntryFrom(table, key, i).value
    decreases |table| - i
  {
    if i < |table| && table[i].0 != key {
      EntryFromIsFirst(table, key, i + 1);
      if EntryFrom(table, key, i).Some? {
        var l: nat :| FirstEntry(table, key, i + 1, l) && table[l].1 == EntryFrom(table, key, i).value;
        assert FirstEntry(table, key, i, l);
      }
    } else if i < |table| {
      assert FirstEntry(table, key, i, i);
    }
  }

  /** `section_aliases.get(key)`: the canonical name `key` is an alias of, if any. */
  function Alias(key: string): Option<string>
  {
    EntryFrom(AliasTable, key, 0)
  }

  /**
   * The alias of `key` is the canonical name in the first entry of the table
   * for `key`, and there is none when the table has no entry for it.
   */
  lemma AliasIsFirstEntry(key: string)
    ensures Alias(key).None? ==> forall l :: 0 <= l < |AliasTable| ==> AliasTable[l].0 != key
    ensures Alias(key).Some? ==>
      exists l: nat :: FirstEntry(AliasTable, key, 0, l) && AliasTable[l].1 == Alias(key).value
  {
    EntryFromIsFirst(AliasTable, key, 0);
  }

  /** The cleaned input: lower-cased, then stripped. */
  function Key(name: string): string
  {
    Strip(Lower(name))
  }

  /** The alias of `key` applies: `key` is in the table and its canonical name is available. */
  predicate AliasApplies(key: string, available: seq<string>)
  {
    Alias(key).Some? && Alias(key).value in available
  }

  /** The ratio of `key` against each candidate, in candidate order. */
  function Similarities(key: string, available: seq<string>): (r: seq<real>)
    ensures |r| == |available|
    ensures forall j :: 0 <= j < |available| ==> r[j] == Ratio(key, available[j])
  {
    if available == [] then [] else [Ratio(key, available[0])] + Similarities(key, available[1..])
  }

  /**
   * The similarity loop from candidate `i` on, over the candidates' ratios.
   * `best` is the index kept so far and `bestSimilarity` its ratio (0 before any
   * is kept); a candidate replaces it only when its ratio is strictly higher and
   * above 0.6.
   */
  function BestFrom(scores: seq<real>, i: nat, best: Option<nat>, bestSimilarity: real): (r: Option<nat>)
    requires i <= |scores|
    requires best.None? ==> bestSimilarity == 0.0
    requires best.None? ==> forall j :: 0 <= j < i ==> scores[j] <= 0.6
    requires best.Some? ==> best.value < i && bestSimilarity == scores[best.value] > 0.6
    requires best.Some? ==> forall j :: 0 <= j < i ==> scores[j] <= bestSimilarity
    requires best.Some? ==> forall j :: 0 <= j < best.value ==> scores[j] < bestSimilarity
    ensures r.None? <==> forall j :: 0 <= j < |scores| ==> scores[j] <= 0.6
    ensures r.Some? ==> r.value < |scores| && scores[r.value] > 0.6
    ensures r.Some? ==> forall j :: 0 <= j < |scores| ==> scores[j] <= scores[r.value]
    ensures r.Some? ==> forall j :: 0 <= j < r.value ==> scores[j] < scores[r.value]
    decreases |scores| - i
  {
    if i == |scores| then best
    else if scores[i] > bestSimilarity && scores[i] > 0.6 then
      BestFrom(scores, i + 1, Some(i), scores[i])
    else
      BestFrom(scores, i + 1, best, bestSimilarity)
  }

  /**
   * The index of the first candidate whose ratio against `key` is highest,
   * provided that ratio is above 0.6.
   */
  function FuzzyIndex(key: string, available: seq<string>): (r: Option<nat>)
    ensures r.None? <==> forall j :: 0 <= j < |available| ==> Ratio(key, available[j]) <= 0.6
    ensures r.Some? ==> r.value < |available| && Ratio(key, available[r.value]) > 0.6
    ensures r.Some? ==> forall j :: 0 <= j < |available| ==> Ratio(key, available[j]) <= Ratio(key, available[r.value])
    ensures r.Some? ==> forall j :: 0 <= j < r.value ==> Ratio(key, available[j]) < Ratio(key, available[r.value])
  {
    BestFrom(Similarities(key, available), 0, None, 0.0)
  }

  /** `normalize_section_name(name, available)`. */
  function NormalizeSectionName(name: string, available: seq<string>): (r: Option<string>)
    ensures name == "" || available == [] ==> r == None
    ensures r.Some? ==> r.value in available
  {
    if name == "" || available == [] then None
    else
      var key := Key(name);
      if key in available then Some(key)
      else if AliasApplies(key, available) then Some(Alias(key).value)
      else
        var found := FuzzyIndex(key, available);
        if found.Some? then Some(available[found.value]) else None
  }

  /** A non-empty name whose cleaned form is a candidate resolves to that form. */
  lemma NormalizeExact(name: string, available: seq<string>)
    requires name != "" && Key(name) in available
    ensures NormalizeSectionName(name, available) == Some(Key(name))
  {
  }

  /** Otherwise, an alias whose canonical name is a candidate resolves to that name. */
  lemma NormalizeAlias(name: string, available: seq<string>)
    requires name != "" && Key(name) !in available && AliasApplies(Key(name), available)
    ensures NormalizeSectionName(name, available) == Some(Alias(Key(name)).value)
  {
  }

  /**
   * Otherwise the name resolves to the most similar candidate, provided its
   * ratio is above 0.6, and to nothing when no ratio is.
   */
  lemma NormalizeFuzzy(name: string, available: seq<string>)
    requires name != "" && available != [] && Key(name) !in available && !AliasApplies(Key(name), available)
    ensures NormalizeSectionName(name, available).None? <==> forall c :: c in available ==> Ratio(Key(name), c) <= 0.6
    ensures NormalizeSectionName(name, available).Some? ==>
      var r := NormalizeSectionName(name, available).value;
      Ratio(Key(name), r) > 0.6 && forall c :: c in available ==> Ratio(Key(name), c) <= Ratio(Key(name), r)
    ensures NormalizeSectionName(name, available).Some? ==>
      exists j :: 0 <= j < |available| && available[j] == NormalizeSectionName(name, available).value &&
        forall l :: 0 <= l < j ==> Ratio(Key(name), available[l]) < Ratio(Key(name), available[j])
  {
    assert forall c :: c in available ==> exists j :: 0 <= j < |available| && available[j] == c;
    var found := FuzzyIndex(Key(name), available);
    if found.Some? {
      assert NormalizeSectionName(name, available).value == available[found.value];
    }
  }

  /**
   * The call `normalize_section_name(value, available)` on a value taken from a
   * model decision: falsy values and an empty list give `None` before the value
   * is touched; any other non-string makes `.lower()` raise.
   */
  function Resolve(name: Json, available: seq<string>): (r: Result<Option<string>, Fault>)
    ensures !Truthy(name) || available == [] ==> r == Ok(None)
    ensures Truthy(name) && available != [] && !name.JStr? ==> r == Err(OtherError)
    ensures name.JStr? ==> r == Ok(NormalizeSectionName(name.s, available))
    ensures r.Ok? && r.value.Some? ==> r.value.value in available
  {
    if !Truthy(name) || available == [] then Ok(None)
    else if name.JStr? then Ok(NormalizeSectionName(name.s, available))
    else Err(OtherError)
  }

  /** A lower-case, trimmed name that is a candidate resolves to itself. */
  lemma {:induction false} CanonicalNameResolvesToItself(name: string, available: seq<string>)
    requires name != "" && name in available
    requires forall i :: 0 <= i < |name| ==> !('A' <= name[i] <= 'Z')
    requires !IsSpace(name[0]) && !IsSpace(name[|name| - 1])
    ensures NormalizeSectionName(name, available) == Some(name)
  {
    PlainTextUnchanged(name);
    NormalizeExact(name, available);
  }

  /**
   * An alias resolves through the table: "exp" is not itself a candidate, and
   * stands for "experiences", which is.
   */
  lemma {:induction false} AliasResolves()
    ensures NormalizeSectionName("exp", ["experiences", "skills"]) == Some("experiences")
  {
    PlainTextUnchanged("exp");
    assert Alias("exp") == Some("experiences");
    NormalizeAlias("exp", ["experiences", "skills"]);
  }

  /**
   * A cleaned name that is no alias and shares no character with any candidate
   * resolves to nothing: every similarity ratio is 0.
   */
  lemma {:induction false} NoSharedCharacter(name: string, available: seq<string>)
    requires Key(name) != ""
    requires !AliasApplies(Key(name), available)
    requires forall c, i, j :: c in available && 0 <= i < |Key(name)| && 0 <= j < |c| ==> Key(name)[i] != c[j]
    ensures NormalizeSectionName(name, available) == None
  {
    var key := Key(name);
    assert forall c :: c in available && c != [] ==> key[0] != c[0];
    forall c | c in available ensures Ratio(key, c) <= 0.6 {
      RatioZeroIffDisjoint(key, c);
    }
    if available != [] {
      assert name != "";
      NormalizeFuzzy(name, available);
    }
  }
}

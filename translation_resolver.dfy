/** TranslationResolver: the field-level fallback that decides which text a
    localised view shows, and the overlay lookup the mappers share. */
module TranslationResolver {
  import opened Common

  /** TranslationResolver.resolve: the overlay value when it has text, else
      the fallback overlay's value when that has text, else the entity's
      own field, whatever it holds. */
  function Resolve(primary: Str, fallback: Str, entityField: Str): (r: Str)
    ensures r == primary || r == fallback || r == entityField
    ensures HasText(entityField) ==> HasText(r)
    ensures HasText(r) ==> HasText(primary) || HasText(fallback) || r == entityField
  {
    if HasText(primary) then primary
    else if HasText(fallback) then fallback
    else entityField
  }

  /** An independent reading of the rule: the first candidate with text,
      or the last resort when none has any. */
  function FirstWithText(candidates: seq<Str>, lastResort: Str): (r: Str)
    ensures r == lastResort || r in candidates
  {
    if candidates == [] then lastResort
    else if HasText(candidates[0]) then candidates[0]
    else FirstWithText(candidates[1..], lastResort)
  }

  lemma ResolveIsFirstWithText(primary: Str, fallback: Str, entityField: Str)
    ensures Resolve(primary, fallback, entityField) == FirstWithText([primary, fallback], entityField)
  {
    assert [primary, fallback][1..] == [fallback];
  }

  /** A primary with text always wins. */
  lemma PrimaryWins(primary: Str, fallback: Str, entityField: Str)
    requires HasText(primary)
    ensures Resolve(primary, fallback, entityField) == primary
  {
  }

  /** A null or blank primary gives way to a fallback with text. */
  lemma FallbackSecond(primary: Str, fallback: Str, entityField: Str)
    requires IsBlank(primary) && HasText(fallback)
    ensures Resolve(primary, fallback, entityField) == fallback
  {
  }

  /** With neither overlay value usable, the entity's field comes back
      unchanged, even when it is itself null or blank. */
  lemma EntityFieldLast(primary: Str, fallback: Str, entityField: Str)
    requires IsBlank(primary) && IsBlank(fallback)
    ensures Resolve(primary, fallback, entityField) == entityField
  {
  }

  /** The overlay for the requested language, if one is stored. */
  function OverlayFor<O>(translations: map<Language, O>, lang: Language): (r: Option<O>)
    ensures r.Some? <==> lang in translations
    ensures r.Some? ==> r.value == translations[lang]
  {
    if lang in translations then Some(translations[lang]) else None
  }

  /** The fallback overlay the mappers consult: the DE overlay, and only
      when no overlay at all exists for a requested language other than DE. */
  function FallbackFor<O>(translations: map<Language, O>, lang: Language): (r: Option<O>)
    ensures r.Some? <==> lang !in translations && lang != DE && DE in translations
    ensures r.Some? ==> r.value == translations[DE]
  {
    if lang !in translations && lang != DE then OverlayFor(translations, DE) else None
  }

  /** `o != null ? get(o) : null` */
  function FieldOf<O, F>(o: Option<O>, get: O -> Option<F>): (r: Option<F>)
    ensures o.None? ==> r.None?
    ensures o.Some? ==> r == get(o.value)
  {
    if o.Some? then get(o.value) else None
  }

  /** One text field of a localised view: the three-tier choice fed by the
      requested overlay, the fallback overlay and the entity. */
  function Localise<O>(translations: map<Language, O>, lang: Language, get: O -> Str, entityField: Str): Str {
    Resolve(FieldOf(OverlayFor(translations, lang), get),
            FieldOf(FallbackFor(translations, lang), get),
            entityField)
  }

  /** What a localised field shows, case by case: a stored overlay for the
      language decides alone (its text, else the entity's field); only when
      there is none, and the language is not DE, does the DE overlay's text
      come in. */
  lemma LocaliseCases<O>(translations: map<Language, O>, lang: Language, get: O -> Str, entityField: Str)
    ensures lang in translations && HasText(get(translations[lang]))
      ==> Localise(translations, lang, get, entityField) == get(translations[lang])
    ensures lang in translations && IsBlank(get(translations[lang]))
      ==> Localise(translations, lang, get, entityField) == entityField
    ensures lang !in translations && lang != DE && DE in translations && HasText(get(translations[DE]))
      ==> Localise(translations, lang, get, entityField) == get(translations[DE])
    ensures lang !in translations && (lang == DE || DE !in translations || IsBlank(get(translations[DE])))
      ==> Localise(translations, lang, get, entityField) == entityField
  {
  }

  /** The raw dump of every stored overlay, paired with its language:
      exactly one entry per stored overlay, here in declaration order of the
      languages. */
  function Dump<O>(translations: map<Language, O>): (r: seq<(Language, O)>)
    ensures forall i :: 0 <= i < |r| ==> r[i].0 in translations && r[i].1 == translations[r[i].0]
    ensures forall i, j :: 0 <= i < j < |r| ==> r[i].0 != r[j].0
    ensures forall l :: l in translations ==> exists i :: 0 <= i < |r| && r[i].0 == l
  {
    var de, pt, en := Entry(translations, DE), Entry(translations, PT), Entry(translations, EN);
    var r := de + pt + en;
    forall i | 0 <= i < |r|
      ensures r[i] == (if i < |de| then de[i] else if i < |de| + |pt| then pt[i - |de|] else en[i - |de| - |pt|])
    {
    }
    forall l | l in translations ensures exists i :: 0 <= i < |r| && r[i].0 == l {
      if l == DE {
        assert r[0].0 == DE;
      } else if l == PT {
        assert r[|de|].0 == PT;
      } else {
        assert r[|de| + |pt|].0 == EN;
      }
    }
    r
  }

  function Entry<O>(translations: map<Language, O>, l: Language): (r: seq<(Language, O)>)
    ensures l in translations ==> r == [(l, translations[l])]
    ensures l !in translations ==> r == []
  {
    if l in translations then [(l, translations[l])] else []
  }

  /** A list with one entry per dumped overlay, each named after its
      overlay's language, names exactly the stored languages, each once. */
  lemma DumpNamesExact<O, D>(translations: map<Language, O>, r: seq<D>, name: D -> string)
    requires |r| == |Dump(translations)|
    requires forall i :: 0 <= i < |r| ==> name(r[i]) == LanguageName(Dump(translations)[i].0)
    ensures forall l :: l in translations <==> exists i :: 0 <= i < |r| && name(r[i]) == LanguageName(l)
    ensures forall i, j :: 0 <= i < j < |r| ==> name(r[i]) != name(r[j])
  {
    forall l ensures l in translations <==> exists i :: 0 <= i < |r| && name(r[i]) == LanguageName(l) {
      DumpNameOf(translations, r, name, l);
    }
    DumpNamesDistinct(translations, r, name);
  }

  lemma DumpNameOf<O, D>(translations: map<Language, O>, r: seq<D>, name: D -> string, l: Language)
    requires |r| == |Dump(translations)|
    requires forall i :: 0 <= i < |r| ==> name(r[i]) == LanguageName(Dump(translations)[i].0)
    ensures l in translations <==> exists i :: 0 <= i < |r| && name(r[i]) == LanguageName(l)
  {
    var d := Dump(translations);
    if l in translations {
      var i :| 0 <= i < |d| && d[i].0 == l;
      assert name(r[i]) == LanguageName(l);
    }
    if exists i :: 0 <= i < |r| && name(r[i]) == LanguageName(l) {
      var i :| 0 <= i < |r| && name(r[i]) == LanguageName(l);
      LanguageNameRoundTrip(d[i].0, LanguageName(l));
      LanguageNameRoundTrip(l, LanguageName(l));
    }
  }

  lemma DumpNamesDistinct<O, D>(translations: map<Language, O>, r: seq<D>, name: D -> string)
    requires |r| == |Dump(translations)|
    requires forall i :: 0 <= i < |r| ==> name(r[i]) == LanguageName(Dump(translations)[i].0)
    ensures forall i, j :: 0 <= i < j < |r| ==> name(r[i]) != name(r[j])
  {
    var d := Dump(translations);
    forall i, j | 0 <= i < j < |r| ensures name(r[i]) != name(r[j]) {
      LanguageNameRoundTrip(d[i].0, LanguageName(d[j].0));
      LanguageNameRoundTrip(d[j].0, LanguageName(d[j].0));
    }
  }
}

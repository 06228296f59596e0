/** The `saveTranslations` loops of the CRUD services: every submitted
    translation replaces the whole overlay of its language, later entries
    win, and an unknown or missing language name aborts the write. */
module Overlays {
  import opened Common

  /** A submitted translation: the language name as sent and the overlay
      fields it carries. */
  datatype TranslationDTO<O> = TranslationDTO(language: Str, fields: O)

  /** The list a form submits; a null list saves nothing. */
  function Submitted<O>(translations: Option<seq<TranslationDTO<O>>>): (r: seq<TranslationDTO<O>>)
    ensures translations.None? ==> r == []
  {
    if translations.None? then [] else translations.value
  }

  /** Every submitted language name is a Language constant. */
  predicate AllLanguagesValid<O>(dtos: seq<TranslationDTO<O>>) {
    forall i :: 0 <= i < |dtos| ==> ParseLanguage(dtos[i].language).Ok?
  }

  /** The fields of the last submitted translation for `l`, if any. */
  function Latest<O>(dtos: seq<TranslationDTO<O>>, l: Language): (r: Option<O>)
    ensures r.Some? ==> exists i :: 0 <= i < |dtos| && ParseLanguage(dtos[i].language) == Ok(l) && dtos[i].fields == r.value
    ensures r.None? ==> forall i :: 0 <= i < |dtos| ==> ParseLanguage(dtos[i].language) != Ok(l)
  {
    if dtos == [] then None
    else if ParseLanguage(dtos[|dtos| - 1].language) == Ok(l) then Some(dtos[|dtos| - 1].fields)
    else Latest(dtos[..|dtos| - 1], l)
  }

  /** The overlay map after the loop, or the exception of the first entry
      whose language does not parse. */
  function SaveAll<O>(overlays: map<Language, O>, dtos: seq<TranslationDTO<O>>): (r: Result<map<Language, O>>)
    ensures r.Err? ==> r.error == NullPointer || r.error.IllegalArgument?
    decreases |dtos|
  {
    if dtos == [] then Ok(overlays)
    else match SaveAll(overlays, dtos[..|dtos| - 1])
      case Err(e) => Err(e)
      case Ok(m) =>
        match ParseLanguage(dtos[|dtos| - 1].language)
        case Err(e) => Err(e)
        case Ok(l) => Ok(m[l := dtos[|dtos| - 1].fields])
  }

  /** The write succeeds exactly when every language parses; then each
      submitted language holds its last submission, nulls included, and
      every other overlay is kept as it was. */
  lemma {:induction false} SaveAllSpec<O>(overlays: map<Language, O>, dtos: seq<TranslationDTO<O>>)
    ensures SaveAll(overlays, dtos).Ok? <==> AllLanguagesValid(dtos)
    ensures SaveAll(overlays, dtos).Ok? ==> forall l ::
      (Latest(dtos, l).Some? ==> l in SaveAll(overlays, dtos).value && SaveAll(overlays, dtos).value[l] == Latest(dtos, l).value)
      && (Latest(dtos, l).None? ==>
            (l in SaveAll(overlays, dtos).value <==> l in overlays)
            && (l in overlays ==> SaveAll(overlays, dtos).value[l] == overlays[l]))
    decreases |dtos|
  {
    if dtos != [] {
      var init := dtos[..|dtos| - 1];
      SaveAllSpec(overlays, init);
      assert AllLanguagesValid(dtos) <==> AllLanguagesValid(init) && ParseLanguage(dtos[|dtos| - 1].language).Ok? by {
        if AllLanguagesValid(init) && ParseLanguage(dtos[|dtos| - 1].language).Ok? {
          forall i | 0 <= i < |dtos| ensures ParseLanguage(dtos[i].language).Ok? {
            if i < |dtos| - 1 { assert dtos[i] == init[i]; }
          }
        }
        if AllLanguagesValid(dtos) {
          forall i | 0 <= i < |init| ensures ParseLanguage(init[i].language).Ok? {
            assert init[i] == dtos[i];
          }
        }
      }
    }
  }

  /** The loop itself: one put per submitted translation, in order. */
  method SaveOverlays<O>(overlays: map<Language, O>, dtos: seq<TranslationDTO<O>>) returns (r: Result<map<Language, O>>)
    ensures r == SaveAll(overlays, dtos)
  {
    var m := overlays;
    var i := 0;
    while i < |dtos|
      invariant 0 <= i <= |dtos|
      invariant SaveAll(overlays, dtos[..i]) == Ok(m)
    {
      assert dtos[..i + 1][..i] == dtos[..i];
      match ParseLanguage(dtos[i].language)
      case Err(e) =>
        r := Err(e);
        assert SaveAll(overlays, dtos[..i + 1]) == Err(e);
        SaveAllStaysFailed(overlays, dtos, i + 1);
        return;
      case Ok(l) =>
        m := m[l := dtos[i].fields];
      i := i + 1;
    }
    assert dtos[..i] == dtos;
    r := Ok(m);
  }

  /** Once a prefix fails, the whole submission fails with the same error. */
  lemma {:induction false} SaveAllStaysFailed<O>(overlays: map<Language, O>, dtos: seq<TranslationDTO<O>>, k: nat)
    requires k <= |dtos| && SaveAll(overlays, dtos[..k]).Err?
    ensures SaveAll(overlays, dtos) == SaveAll(overlays, dtos[..k])
    decreases |dtos| - k
  {
    if k < |dtos| {
      assert dtos[..k + 1][..k] == dtos[..k];
      SaveAllStaysFailed(overlays, dtos, k + 1);
    } else {
      assert dtos[..k] == dtos;
    }
  }
}

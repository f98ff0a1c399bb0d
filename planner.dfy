/**
 * The pure helper rules of the lesson-planner screen, src/App.tsx: the
 * inclusion-option toggle, the grade list of the selected country, the
 * cycling loading message, the message shown when generation fails, the
 * removal of a saved plan from the history, the export file name and the
 * displayed country name.
 */
module Planner {
  import opened Builtins
  import Gemini

  /** An entry of `COUNTRIES`. */
  datatype Country = Country(id: string, name: string)

  /** A saved plan, a row of the `planeaciones` table. */
  datatype Plan = Plan(id: int, createdAt: string, tema: string, grado: string, contenido: string)

  const Countries := [
    Country("MX", "México"),
    Country("CO", "Colombia"),
    Country("AR", "Argentina"),
    Country("ES", "España"),
    Country("CL", "Chile"),
    Country("PE", "Perú"),
    Country("US", "EE. UU. (Español)"),
    Country("CA", "Centroamérica"),
    Country("OTRO", "Otro / Genérico")
  ]

  const UnknownCountry := "el país seleccionado"

  /** `EDUCATION_LEVELS`: the grades of each educational system. */
  const EducationLevels: map<string, seq<string>> := map[
    "MX" := ["Preescolar", "1° Primaria", "2° Primaria", "3° Primaria", "4° Primaria", "5° Primaria", "6° Primaria",
             "1° Secundaria", "2° Secundaria", "3° Secundaria",
             "Bachillerato / Preparatoria", "Universidad / Facultad"],
    "CO" := ["Preescolar / Transición", "1° Primaria", "2° Primaria", "3° Primaria", "4° Primaria", "5° Primaria",
             "6° Bachillerato", "7° Bachillerato", "8° Bachillerato", "9° Bachillerato",
             "10° Media", "11° Media", "Universidad"],
    "ES" := ["Educación Infantil", "1° Primaria", "2° Primaria", "3° Primaria", "4° Primaria", "5° Primaria", "6° Primaria",
             "1° ESO", "2° ESO", "3° ESO", "4° ESO",
             "1° Bachillerato", "2° Bachillerato", "Formación Profesional", "Universidad"],
    "AR" := ["Nivel Inicial", "1° Grado", "2° Grado", "3° Grado", "4° Grado", "5° Grado", "6° Grado", "7° Grado",
             "1° Año Secundaria", "2° Año Secundaria", "3° Año Secundaria", "4° Año Secundaria", "5° Año Secundaria",
             "6° Año Secundaria", "Nivel Superior / Universitario"],
    "CL" := ["Educación Parvularia", "1° Básico", "2° Básico", "3° Básico", "4° Básico", "5° Básico", "6° Básico",
             "7° Básico", "8° Básico", "1° Medio", "2° Medio", "3° Medio", "4° Medio", "Educación Superior"],
    "US" := ["Kindergarten", "1st Grade", "2nd Grade", "3rd Grade", "4th Grade", "5th Grade",
             "6th Grade (Middle School)", "7th Grade (Middle School)", "8th Grade (Middle School)",
             "9th Grade (High School)", "10th Grade (High School)", "11th Grade (High School)",
             "12th Grade (High School)", "College / University"],
    "OTRO" := ["Preescolar / Inicial", "Primaria (Grados 1-3)", "Primaria (Grados 4-6)",
               "Secundaria / Media", "Bachillerato / High School", "Universidad"]
  ]

  const LoadingSteps := [
    "Conectando con el cerebro pedagógico...",
    "Analizando normativa educativa...",
    "Estructurando secuencia didáctica...",
    "Diseñando estrategias de inclusión...",
    "Redactando instrumentos de evaluación...",
    "Afinando detalles finales..."
  ]

  /** The warning sign and the opening of the bold label that both failure texts start with. */
  const Banner := "\U{26A0}\U{FE0F} **"
  const SaturatedText := "Sistema Saturado:** " + "Todas las claves API disponibles se han agotado. " + "Por favor contacta al administrador."
  const SaturatedMessage := Banner + SaturatedText
  const ErrorPrefix := Banner + "Error:** "
  const RetryLater := "Intenta de nuevo más tarde."

  /** The text whose presence in an error message means the key pool is empty. */
  const PoolEmptyMarker := "No hay claves"

  const ExportPrefix := "Planeacion_"

  // ---------------------------------------------------------------------
  // Inclusion options

  /** `toggleInclusion`: drop every occurrence of a selected id, or append an unselected one. */
  function ToggleInclusion(selected: seq<string>, id: string): (r: seq<string>)
    ensures id in selected ==>
      IsSubsequence(r, selected) && id !in r &&
      forall x :: x != id ==> multiset(r)[x] == multiset(selected)[x]
    ensures id !in selected ==> r == selected + [id]
  {
    if id in selected then Filter(selected, (item: string) => item != id) else selected + [id]
  }

  /** Toggling acts on the set of selected ids as adding or removing that one id. */
  lemma ToggleFlipsMembership(selected: seq<string>, id: string, x: string)
    ensures x in ToggleInclusion(selected, id) <==> (if x == id then id !in selected else x in selected)
  {
    var r := ToggleInclusion(selected, id);
    if id in selected {
      assert x in r <==> multiset(r)[x] > 0;
      assert x in selected <==> multiset(selected)[x] > 0;
    }
  }

  /** Toggling an unselected id twice gives back the original selection. */
  lemma ToggleTwice(selected: seq<string>, id: string)
    requires id !in selected
    ensures ToggleInclusion(ToggleInclusion(selected, id), id) == selected
  {
    var keep := (item: string) => item != id;
    FilterAppend(selected, [id], keep);
    FilterKeepsAll(selected, keep);
    assert Filter([id], keep) == [];
  }

  /** A selection without repeated ids keeps that property when toggled. */
  lemma ToggleKeepsDistinct(selected: seq<string>, id: string)
    requires forall x :: multiset(selected)[x] <= 1
    ensures forall x :: multiset(ToggleInclusion(selected, id))[x] <= 1
  {
  }

  // ---------------------------------------------------------------------
  // Grades

  function Lookup(levels: map<string, seq<string>>, key: string): Option<seq<string>> {
    if key in levels then Some(levels[key]) else None
  }

  /** `a || b` on a value that is an array or `undefined`: every array is truthy, even an empty one. */
  function OrElse(a: Option<seq<string>>, b: Option<seq<string>>): Option<seq<string>> {
    if a.Some? then a else b
  }

  /** `EDUCATION_LEVELS[country] || EDUCATION_LEVELS['OTRO'] || EDUCATION_LEVELS['MX']`. */
  function AvailableGrades(country: string): (r: Option<seq<string>>)
    ensures country in EducationLevels ==> r == Some(EducationLevels[country])
    ensures country !in EducationLevels ==> r == Some(EducationLevels["OTRO"])
  {
    OrElse(Lookup(EducationLevels, country), OrElse(Lookup(EducationLevels, "OTRO"), Lookup(EducationLevels, "MX")))
  }

  /** Every country, listed or not, gets a non-empty grade list. */
  lemma GradesNeverEmpty(country: string)
    ensures AvailableGrades(country).Some? && |AvailableGrades(country).value| > 0
  {
  }

  /** Peru, Central America and no selection at all fall back to the generic list. */
  lemma GradeFallbacks()
    ensures AvailableGrades("PE") == Some(EducationLevels["OTRO"])
    ensures AvailableGrades("CA") == Some(EducationLevels["OTRO"])
    ensures AvailableGrades("") == Some(EducationLevels["OTRO"])
    ensures AvailableGrades("MX").value[0] == "Preescolar"
  {
  }

  // ---------------------------------------------------------------------
  // Loading message

  /** `(LOADING_STEPS.indexOf(prev) + 1) % LOADING_STEPS.length`, for a list of steps `steps`. */
  function NextLoadingIndex(steps: seq<string>, prev: string): (i: int)
    requires steps != []
    ensures 0 <= i < |steps|
    ensures prev !in steps ==> i == 0
  {
    (IndexOf(steps, prev) + 1) % |steps|
  }

  /** The message the interval shows after `prev`. */
  function NextLoadingMessage(steps: seq<string>, prev: string): (m: string)
    requires steps != []
    ensures m in steps
  {
    steps[NextLoadingIndex(steps, prev)]
  }

  predicate Distinct(steps: seq<string>) {
    forall i, j :: 0 <= i < j < |steps| ==> steps[i] != steps[j]
  }

  lemma LoadingStepsDistinct()
    ensures Distinct(LoadingSteps)
  {
    assert LoadingSteps[1][1] != LoadingSteps[5][1];
  }

  /** Every step is first found at its own position. */
  predicate FoundInPlace(steps: seq<string>) {
    forall i {:trigger IndexOf(steps, steps[i])} :: 0 <= i < |steps| ==> IndexOf(steps, steps[i]) == i
  }

  lemma DistinctFoundInPlace(steps: seq<string>)
    requires Distinct(steps)
    ensures FoundInPlace(steps)
  {
  }

  /** Each step of a list without repeats is followed by the next one, and the last by the first. */
  lemma NextStep(steps: seq<string>, j: int)
    requires FoundInPlace(steps) && 0 <= j < |steps|
    ensures NextLoadingMessage(steps, steps[j]) == steps[if j + 1 == |steps| then 0 else j + 1]
  {
    if j + 1 == |steps| {
      ModOfSum(1, |steps|, 0);
    } else {
      ModOfSum(0, |steps|, j + 1);
    }
  }

  /** The message after `n` ticks of the interval. */
  function AfterTicks(steps: seq<string>, prev: string, n: nat): string
    requires steps != []
  {
    if n == 0 then prev else NextLoadingMessage(steps, AfterTicks(steps, prev, n - 1))
  }

  /** The position `n` places after `j` on a ring of `m` positions, counted one place at a time. */
  function Advance(j: nat, n: nat, m: nat): (i: nat)
    requires j < m
    ensures i < m
  {
    if n == 0 then j
    else
      var i := Advance(j, n - 1, m);
      if i + 1 == m then 0 else i + 1
  }

  /** Counting places one at a time agrees with the remainder. */
  lemma {:induction false} AdvanceIsMod(j: nat, n: nat, m: nat)
    requires j < m
    ensures Advance(j, n, m) == (j + n) % m
  {
    if n == 0 {
      ModOfSum(0, m, j);
    } else {
      AdvanceIsMod(j, n - 1, m);
      var i := Advance(j, n - 1, m);
      ModSucc(j + n - 1, j + n, m);
      if i + 1 == m {
        ModOfSum(1, m, 0);
      } else {
        ModOfSum(0, m, i + 1);
      }
    }
  }

  lemma {:induction false} TicksAdvance(steps: seq<string>, j: nat, n: nat)
    requires FoundInPlace(steps) && j < |steps|
    ensures AfterTicks(steps, steps[j], n) == steps[Advance(j, n, |steps|)]
  {
    if n > 0 {
      var k := Advance(j, n - 1, |steps|);
      TicksAdvance(steps, j, n - 1);
      NextStep(steps, k);
      assert AfterTicks(steps, steps[j], n) == NextLoadingMessage(steps, steps[k]);
      assert Advance(j, n, |steps|) == if k + 1 == |steps| then 0 else k + 1;
    }
  }

  /** From step `j`, `n` ticks later the message is step `(j + n) % |steps|`: the messages cycle. */
  lemma TicksCycle(steps: seq<string>, j: nat, n: nat)
    requires Distinct(steps) && j < |steps|
    ensures AfterTicks(steps, steps[j], n) == steps[(j + n) % |steps|]
  {
    DistinctFoundInPlace(steps);
    TicksAdvance(steps, j, n);
    AdvanceIsMod(j, n, |steps|);
  }

  /** The six loading messages come round again after six ticks. */
  lemma LoadingCycle(j: nat)
    requires 0 <= j < |LoadingSteps|
    ensures AfterTicks(LoadingSteps, LoadingSteps[j], |LoadingSteps|) == LoadingSteps[j]
  {
    LoadingStepsDistinct();
    TicksCycle(LoadingSteps, j, |LoadingSteps|);
    ModOfSum(1, |LoadingSteps|, j);
  }

  /** A message that is not a step (`indexOf` gives -1) is followed by the first step; the screen never hands such a message to the updater, so this case is defensive. */
  lemma UnknownMessageRestarts(steps: seq<string>, prev: string)
    requires steps != [] && prev !in steps
    ensures NextLoadingMessage(steps, prev) == steps[0]
  {
  }

  // ---------------------------------------------------------------------
  // Error message

  /** The text shown in place of a plan when the generation call rejects with `e`. */
  function ErrorMessage(e: Gemini.Failure): (r: string)
    ensures StartsWith(r, ErrorPrefix) || r == SaturatedMessage
  {
    if e.message.Some? && Includes(e.message.value, PoolEmptyMarker) then SaturatedMessage
    else ErrorPrefix + (if Truthy(e.message) then e.message.value else RetryLater)
  }

  /** The two kinds of message differ already in their sixth character. */
  lemma PrefixedIsNotSaturated(x: string)
    ensures ErrorPrefix + x != SaturatedMessage
  {
    AppendAssoc(Banner, "Error:** ", x);
    assert (Banner + ("Error:** " + x))[|Banner|] == 'E';
    assert (Banner + SaturatedText)[|Banner|] == 'S';
  }

  /**
   * The saturated-system text is shown exactly for a message containing
   * "No hay claves"; any other message is shown after the error prefix, and a
   * missing or empty one is replaced by the try-again text.
   */
  lemma ErrorMessageCases(e: Gemini.Failure)
    ensures ErrorMessage(e) == SaturatedMessage <==> e.message.Some? && Includes(e.message.value, PoolEmptyMarker)
    ensures !(e.message.Some? && Includes(e.message.value, PoolEmptyMarker)) ==>
      ErrorMessage(e) == ErrorPrefix + (if Truthy(e.message) then e.message.value else RetryLater)
  {
    PrefixedIsNotSaturated(if Truthy(e.message) then e.message.value else RetryLater);
  }

  lemma PoolEmptyStartsWithMarker()
    ensures StartsWith(Gemini.PoolEmptyMessage, PoolEmptyMarker)
  {
    StartsWithAppend(PoolEmptyMarker, " API " + ("disponibles " + ("o activas " + ("en el " + "sistema."))));
  }

  lemma LimitLacksUpperN() ensures 'N' !in Gemini.LimitMessage {}

  /** The controller's pool-empty error is shown as the saturated-system text. */
  lemma PoolEmptyShowsSaturated()
    ensures ErrorMessage(Gemini.PoolEmptyError) == SaturatedMessage
  {
    PoolEmptyStartsWithMarker();
    PrefixIncluded(Gemini.PoolEmptyMessage, PoolEmptyMarker);
  }

  /** The controller's retry-limit error is shown, after the prefix, as it is. */
  lemma LimitShowsItsMessage()
    ensures ErrorMessage(Gemini.LimitError) == ErrorPrefix + Gemini.LimitMessage
  {
    LimitLacksUpperN();
    MissingCharExcludes(Gemini.LimitMessage, PoolEmptyMarker, 'N');
  }

  /** A pass that finds no key held and the pool empty makes the screen show the saturated-system text. */
  lemma EmptyPoolShowsSaturated(s: Gemini.Session, prompt: string, attempts: nat, retries: int)
    requires attempts < retries && !Truthy(s.key) && !Truthy(Gemini.PoolReply(s.replies))
    ensures Gemini.Run(s, prompt, attempts, retries).outcome.Thrown?
    ensures ErrorMessage(Gemini.Run(s, prompt, attempts, retries).outcome.error) == SaturatedMessage
  {
    Gemini.PoolEmpty(s, prompt, attempts, retries);
    PoolEmptyShowsSaturated();
  }

  /** A refused key followed by an empty pool also ends in the saturated-system text. */
  lemma RefusedThenEmptyShowsSaturated(s: Gemini.Session, prompt: string, attempts: nat, retries: int, e: Gemini.Failure)
    requires attempts + 1 < retries && Truthy(s.key) && !Truthy(Gemini.PoolReply(s.replies))
    requires Gemini.ProviderReply(s.outcomes) == Gemini.Err(e) && Gemini.IsRotatable(e)
    ensures Gemini.Run(s, prompt, attempts, retries).outcome.Thrown?
    ensures ErrorMessage(Gemini.Run(s, prompt, attempts, retries).outcome.error) == SaturatedMessage
  {
    Gemini.RotationThenPoolEmpty(s, prompt, attempts, retries, e);
    PoolEmptyShowsSaturated();
  }

  // ---------------------------------------------------------------------
  // History

  /** `deletePlan`: when the remote delete succeeds, every plan with that id leaves the history. */
  function DeletePlan(history: seq<Plan>, id: int, deleteFailed: bool): (r: seq<Plan>)
    ensures deleteFailed ==> r == history
    ensures !deleteFailed ==>
      IsSubsequence(r, history) &&
      (forall p: Plan :: p in r <==> p in history && p.id != id) &&
      forall p: Plan :: p.id != id ==> multiset(r)[p] == multiset(history)[p]
  {
    if deleteFailed then history else Filter(history, (plan: Plan) => plan.id != id)
  }

  /** Deleting an id that no plan has leaves the history as it is. */
  lemma DeleteAbsent(history: seq<Plan>, id: int)
    requires forall p :: p in history ==> p.id != id
    ensures DeletePlan(history, id, false) == history
  {
    FilterKeepsAll(history, (plan: Plan) => plan.id != id);
  }

  /** A second delete of the same id changes nothing. */
  lemma DeleteIdempotent(history: seq<Plan>, id: int)
    ensures DeletePlan(DeletePlan(history, id, false), id, false) == DeletePlan(history, id, false)
  {
    DeleteAbsent(DeletePlan(history, id, false), id);
  }

  // ---------------------------------------------------------------------
  // Export file name

  /** `s` with its leading `\s` characters removed. */
  function SkipSpaces(s: string): (r: string)
    ensures |r| <= |s|
  {
    if s != [] && IsSpace(s[0]) then SkipSpaces(s[1..]) else s
  }

  /** `s.replace(/\s+/g, '_')`: every maximal run of `\s` characters becomes one `_`. */
  function Underscored(s: string): (r: string)
    ensures forall i :: 0 <= i < |r| ==> !IsSpace(r[i])
    decreases |s|
  {
    if s == [] then []
    else if IsSpace(s[0]) then "_" + Underscored(SkipSpaces(s[1..]))
    else [s[0]] + Underscored(s[1..])
  }

  predicate SpaceFree(s: string) {
    forall i :: 0 <= i < |s| ==> !IsSpace(s[i])
  }

  /** A string is left alone exactly when it has no `\s` character. */
  lemma {:induction false} UnderscoredIdentity(s: string)
    ensures Underscored(s) == s <==> SpaceFree(s)
    decreases |s|
  {
    if s != [] && !IsSpace(s[0]) {
      UnderscoredIdentity(s[1..]);
      assert SpaceFree(s) <==> SpaceFree(s[1..]) by {
        assert forall i :: 0 < i < |s| ==> s[i] == s[1..][i - 1];
      }
    } else if s != [] {
      assert Underscored(s)[0] == '_' != s[0];
    }
  }

  /** Replacing twice gives what replacing once gives. */
  lemma UnderscoredIdempotent(s: string)
    ensures Underscored(Underscored(s)) == Underscored(s)
  {
    UnderscoredIdentity(Underscored(s));
  }

  predicate AllSpaces(s: string) {
    forall i :: 0 <= i < |s| ==> IsSpace(s[i])
  }

  /** A run of `\s` characters followed by a word is skipped up to that word. */
  lemma {:induction false} SkipGap(gap: string, b: string)
    requires AllSpaces(gap) && (b == [] || !IsSpace(b[0]))
    ensures SkipSpaces(gap + b) == b
    decreases |gap|
  {
    if gap == [] {
      assert gap + b == b;
    } else {
      assert (gap + b)[0] == gap[0] && (gap + b)[1..] == gap[1..] + b;
      assert AllSpaces(gap[1..]) by {
        assert forall i :: 0 <= i < |gap[1..]| ==> gap[1..][i] == gap[i + 1];
      }
      SkipGap(gap[1..], b);
    }
  }

  /** A run of `\s` characters before a word becomes a single `_`. */
  lemma UnderscoredGap(gap: string, b: string)
    requires gap != [] && AllSpaces(gap) && (b == [] || !IsSpace(b[0]))
    ensures Underscored(gap + b) == "_" + Underscored(b)
  {
    assert (gap + b)[0] == gap[0] && (gap + b)[1..] == gap[1..] + b;
    assert AllSpaces(gap[1..]) by {
      assert forall i :: 0 <= i < |gap[1..]| ==> gap[1..][i] == gap[i + 1];
    }
    SkipGap(gap[1..], b);
  }

  /** A run of `\s` characters between two words becomes a single `_`. */
  lemma {:induction false} UnderscoredJoin(a: string, gap: string, b: string)
    requires SpaceFree(a) && gap != [] && AllSpaces(gap) && (b == [] || !IsSpace(b[0]))
    ensures Underscored(a + gap + b) == a + "_" + Underscored(b)
    decreases |a|
  {
    if a == [] {
      assert a + gap + b == gap + b;
      UnderscoredGap(gap, b);
    } else {
      assert (a + gap + b)[0] == a[0] && (a + gap + b)[1..] == a[1..] + gap + b;
      assert SpaceFree(a[1..]) by {
        assert forall i :: 0 <= i < |a[1..]| ==> a[1..][i] == a[i + 1];
      }
      UnderscoredJoin(a[1..], gap, b);
      AppendAssoc([a[0]], a[1..], "_" + Underscored(b));
      assert [a[0]] + a[1..] == a;
    }
  }

  /** `Planeacion_${topic}_${grade}` with every run of `\s` replaced by `_`. */
  function ExportFilename(topic: string, grade: string): (r: string)
    ensures StartsWith(r, ExportPrefix)
    ensures forall i :: 0 <= i < |r| ==> !IsSpace(r[i])
  {
    ExportPrefix + Underscored(topic) + "_" + Underscored(grade)
  }

  /** The name is taken apart again at the separator: topic and grade without spaces appear verbatim. */
  lemma FilenameVerbatim(topic: string, grade: string)
    requires SpaceFree(topic) && SpaceFree(grade)
    ensures ExportFilename(topic, grade) == ExportPrefix + topic + "_" + grade
  {
    UnderscoredIdentity(topic);
    UnderscoredIdentity(grade);
  }

  // ---------------------------------------------------------------------
  // Country name

  /** `COUNTRIES.find(c => c.id === country)?.name || 'el país seleccionado'`. */
  function CountryName(country: string): (r: string)
    ensures r != ""
    ensures (forall i :: 0 <= i < |Countries| ==> Countries[i].id != country) ==> r == UnknownCountry
  {
    match Find(Countries, (c: Country) => c.id == country)
    case Some(c) => if c.name != "" then c.name else UnknownCountry
    case None => UnknownCountry
  }

  lemma CountryIdsDistinct()
    ensures forall i, j :: 0 <= i < j < |Countries| ==> Countries[i].id != Countries[j].id
  {
  }

  lemma CountryNamesPresent()
    ensures forall i :: 0 <= i < |Countries| ==> Countries[i].name != ""
  {
  }

  /** A listed id is shown with its own entry's name. */
  lemma ListedCountryName(i: int)
    requires 0 <= i < |Countries|
    ensures CountryName(Countries[i].id) == Countries[i].name
  {
    CountryIdsDistinct();
    CountryNamesPresent();
    var c := Countries[i];
    FindFirst(Countries, (c: Country) => c.id == Countries[i].id, i);
    assert c.name != "";
  }
}

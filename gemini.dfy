/**
 * The API-key rotation and retry controller of src/lib/gemini.ts.
 *
 * The credential pool (the `get_valid_api_key` and `mark_key_exhausted`
 * remote procedures) and the generation provider are oracles: a queue of pool
 * replies and a queue of provider replies, held by a `Backend` object that
 * also logs every call it receives. `Try` and `Run` are the specification of
 * one pass of the retry loop and of the whole loop; the class
 * `GeminiService` is the controller itself, with its mutable `currentKey`,
 * and its loop is proved to behave as `Run` says.
 */
module Gemini {
  import opened Builtins

  /** A thrown JavaScript error; its `message` may be missing. */
  datatype Failure = Failure(message: Option<string>)

  /** What one provider call gives back: a response whose `text` may be missing, or a thrown error. */
  datatype Reply = Ok(text: Option<string>) | Err(error: Failure)

  /** What `generateContentWithRotation` resolves to, or the error it rejects with. */
  datatype Outcome = Text(text: string) | Thrown(error: Failure)

  /** One call from the controller to the outside world. */
  datatype Event = Acquire | Provide(key: string, prompt: string) | Mark(key: string)

  /** The controller's key together with the oracles' pending replies. */
  datatype Session = Session(key: Option<string>, replies: seq<Option<string>>, outcomes: seq<Reply>)

  /** One pass of the loop body: it returns, or it rotates and loops again. */
  datatype Attempt = Done(outcome: Outcome, after: Session, events: seq<Event>) | Rotate(after: Session, events: seq<Event>)

  /** A whole call: what it returns or throws, the state it leaves, the calls it made. */
  datatype Final = Final(outcome: Outcome, after: Session, events: seq<Event>)

  const DefaultRetries := 3
  // The two messages are written in short pieces so that the verifier can
  // tell cheaply which characters they contain.
  const PoolEmptyMessage := "No hay claves" + (" API " + ("disponibles " + ("o activas " + ("en el " + "sistema."))))
  const LimitMessage := "Se agotaron " + "todas las " + "claves API " + "disponibles " + "o se " + "alcanzó el " + "límite de " + "reintentos."
  const PoolEmptyError := Failure(Some(PoolEmptyMessage))
  const LimitError := Failure(Some(LimitMessage))

  /** The error a provider gives when its reply queue has run dry: a failure without a message. */
  const SilentFailure := Failure(None)

  /** The substrings of a quota or rate-limit failure. */
  const QuotaMarkers := ["429", "quota", "Resource has been exhausted"]

  /** The substrings of a refused or invalid key. */
  const AuthMarkers := ["API key", "403"]

  function PoolReply(replies: seq<Option<string>>): Option<string> {
    if replies == [] then None else replies[0]
  }

  function PoolRest(replies: seq<Option<string>>): seq<Option<string>> {
    if replies == [] then [] else replies[1..]
  }

  function ProviderReply(outcomes: seq<Reply>): Reply {
    if outcomes == [] then Err(SilentFailure) else outcomes[0]
  }

  function ProviderRest(outcomes: seq<Reply>): seq<Reply> {
    if outcomes == [] then [] else outcomes[1..]
  }

  /** `response.text || ''`. */
  function TextOrEmpty(text: Option<string>): (r: string)
    ensures r == "" <==> !Truthy(text)
    ensures Truthy(text) ==> r == text.value
  {
    if Truthy(text) then text.value else ""
  }

  predicate IsQuotaError(e: Failure) {
    e.message.Some? && IncludesAny(e.message.value, QuotaMarkers)
  }

  predicate IsAuthError(e: Failure) {
    e.message.Some? && IncludesAny(e.message.value, AuthMarkers)
  }

  predicate IsRotatable(e: Failure) {
    IsQuotaError(e) || IsAuthError(e)
  }

  /** The five substrings, in the order they are tested. */
  const RotatableMarkers := QuotaMarkers + AuthMarkers

  /** A failure is rotatable exactly when its message contains one of the five markers. */
  lemma ClassificationIff(e: Failure)
    ensures IsRotatable(e) <==>
      e.message.Some? &&
      exists j, i :: 0 <= j < |RotatableMarkers| && OccursAt(e.message.value, RotatableMarkers[j], i)
  {
    if e.message.Some? {
      var m := e.message.value;
      IncludesAnyIff(m, QuotaMarkers);
      IncludesAnyIff(m, AuthMarkers);
      IncludesAnyIff(m, RotatableMarkers);
      forall j | 0 <= j < |RotatableMarkers|
        ensures Includes(m, RotatableMarkers[j]) <==> exists i :: OccursAt(m, RotatableMarkers[j], i)
      {
        IncludesIff(m, RotatableMarkers[j]);
      }
      assert forall j :: 0 <= j < |QuotaMarkers| ==> RotatableMarkers[j] == QuotaMarkers[j];
      assert forall j :: 0 <= j < |AuthMarkers| ==> RotatableMarkers[j + |QuotaMarkers|] == AuthMarkers[j];
    }
  }

  // The characters of the markers that the pool-empty message lacks, one at a time.
  lemma PoolEmptyLacksDigit() ensures '4' !in PoolEmptyMessage {}
  lemma PoolEmptyLacksQ() ensures 'q' !in PoolEmptyMessage {}
  lemma PoolEmptyLacksUpperR() ensures 'R' !in PoolEmptyMessage {}
  lemma PoolEmptyLacksK() ensures 'k' !in PoolEmptyMessage {}

  lemma PoolEmptyNotQuota()
    ensures !IsQuotaError(PoolEmptyError)
  {
    var m := PoolEmptyMessage;
    PoolEmptyLacksDigit();
    PoolEmptyLacksQ();
    PoolEmptyLacksUpperR();
    MissingCharExcludes(m, "429", '4');
    MissingCharExcludes(m, "quota", 'q');
    MissingCharExcludes(m, "Resource has been exhausted", 'R');
    IncludesAnyIff(m, QuotaMarkers);
  }

  lemma PoolEmptyNotAuth()
    ensures !IsAuthError(PoolEmptyError)
  {
    var m := PoolEmptyMessage;
    PoolEmptyLacksDigit();
    PoolEmptyLacksK();
    MissingCharExcludes(m, "API key", 'k');
    MissingCharExcludes(m, "403", '4');
    IncludesAnyIff(m, AuthMarkers);
  }

  /** The pool-empty error matches none of the markers, so it is never rotated. */
  lemma PoolEmptyIsFatal()
    ensures !IsRotatable(PoolEmptyError)
  {
    PoolEmptyNotQuota();
    PoolEmptyNotAuth();
  }

  /** The `catch` block: rotate on a rotatable failure while a key is held, rethrow otherwise. */
  function Catch(e: Failure, s: Session, events: seq<Event>): Attempt {
    if Truthy(s.key) && IsRotatable(e) then
      Rotate(s.(key := None), events + [Mark(s.key.value)])
    else
      Done(Thrown(e), s, events)
  }

  /** The `try` block: obtain a key if none is held, call the provider, classify a failure. */
  function Try(s: Session, prompt: string): Attempt {
    if !Truthy(s.key) && !Truthy(PoolReply(s.replies)) then
      Catch(PoolEmptyError, s.(replies := PoolRest(s.replies)), [Acquire])
    else
      var held := if Truthy(s.key) then s else Session(PoolReply(s.replies), PoolRest(s.replies), s.outcomes);
      var events := (if Truthy(s.key) then [] else [Acquire]) + [Provide(held.key.value, prompt)];
      var after := held.(outcomes := ProviderRest(s.outcomes));
      match ProviderReply(s.outcomes)
      case Ok(text) => Done(Text(TextOrEmpty(text)), after, events)
      case Err(e) => Catch(e, after, events)
  }

  /** `while (attempts < retries)`, then the retry-limit error. */
  function Run(s: Session, prompt: string, attempts: nat, retries: int): Final
    decreases retries - attempts
  {
    if attempts < retries then
      match Try(s, prompt)
      case Done(outcome, after, events) => Final(outcome, after, events)
      case Rotate(after, events) =>
        var rest := Run(after, prompt, attempts + 1, retries);
        Final(rest.outcome, rest.after, events + rest.events)
    else
      Final(Thrown(LimitError), s, [])
  }

  /** How many rotations a call starting at `attempts` may still make. */
  function Budget(attempts: nat, retries: int): nat {
    if attempts < retries then retries - attempts else 0
  }

  /** The keys reported exhausted, in order. */
  function Marked(events: seq<Event>): seq<string> {
    if events == [] then []
    else (if events[0].Mark? then [events[0].key] else []) + Marked(events[1..])
  }

  /** The number of provider calls. */
  function Calls(events: seq<Event>): nat {
    if events == [] then 0
    else (if events[0].Provide? then 1 else 0) + Calls(events[1..])
  }

  /** The number of pool requests. */
  function Acquisitions(events: seq<Event>): nat {
    if events == [] then 0
    else (if events[0].Acquire? then 1 else 0) + Acquisitions(events[1..])
  }

  lemma {:induction false} MarkedAppend(a: seq<Event>, b: seq<Event>)
    ensures Marked(a + b) == Marked(a) + Marked(b)
  {
    if a != [] {
      assert (a + b)[0] == a[0] && (a + b)[1..] == a[1..] + b;
      MarkedAppend(a[1..], b);
    } else {
      assert a + b == b;
    }
  }

  lemma {:induction false} CallsAppend(a: seq<Event>, b: seq<Event>)
    ensures Calls(a + b) == Calls(a) + Calls(b)
  {
    if a != [] {
      assert (a + b)[0] == a[0] && (a + b)[1..] == a[1..] + b;
      CallsAppend(a[1..], b);
    } else {
      assert a + b == b;
    }
  }

  lemma {:induction false} AcquisitionsAppend(a: seq<Event>, b: seq<Event>)
    ensures Acquisitions(a + b) == Acquisitions(a) + Acquisitions(b)
  {
    if a != [] {
      assert (a + b)[0] == a[0] && (a + b)[1..] == a[1..] + b;
      AcquisitionsAppend(a[1..], b);
    } else {
      assert a + b == b;
    }
  }

  lemma CountsAppend(a: seq<Event>, b: seq<Event>)
    ensures Marked(a + b) == Marked(a) + Marked(b)
    ensures Calls(a + b) == Calls(a) + Calls(b)
    ensures Acquisitions(a + b) == Acquisitions(a) + Acquisitions(b)
  {
    MarkedAppend(a, b);
    CallsAppend(a, b);
    AcquisitionsAppend(a, b);
  }

  /** Every report of an exhausted key comes right after the provider call that used it. */
  ghost predicate MarksFollowUse(events: seq<Event>, prompt: string) {
    forall i :: 0 <= i < |events| && events[i].Mark? ==> 0 < i && events[i - 1] == Provide(events[i].key, prompt)
  }

  /** The provider is only ever given a non-empty key. */
  ghost predicate KeysPresent(events: seq<Event>) {
    forall i :: 0 <= i < |events| && events[i].Provide? ==> events[i].key != ""
  }

  /** The calls of one pass: at most one pool request and one provider call, with a non-empty key, and a report only right after that call. */
  lemma TryShape(s: Session, prompt: string)
    ensures Try(s, prompt).events != [] && !Try(s, prompt).events[0].Mark?
    ensures MarksFollowUse(Try(s, prompt).events, prompt) && KeysPresent(Try(s, prompt).events)
    ensures Calls(Try(s, prompt).events) <= 1 && Acquisitions(Try(s, prompt).events) <= 1
  {
    var a := Try(s, prompt);
    CountsAppend([Acquire], [Provide("", prompt)]);
    if !Truthy(s.key) && !Truthy(PoolReply(s.replies)) {
      assert a.events == [Acquire];
    } else {
      var held := if Truthy(s.key) then s else Session(PoolReply(s.replies), PoolRest(s.replies), s.outcomes);
      var events := (if Truthy(s.key) then [] else [Acquire]) + [Provide(held.key.value, prompt)];
      CountsAppend(if Truthy(s.key) then [] else [Acquire], [Provide(held.key.value, prompt)]);
      CountsAppend(events, [Mark(held.key.value)]);
      assert events[|events| - 1] == Provide(held.key.value, prompt);
    }
  }

  /** How one pass ends: a rotation reports one key and drops it, a success keeps the key it used. */
  lemma TryOutcome(s: Session, prompt: string)
    ensures Try(s, prompt).Rotate? ==>
      Try(s, prompt).after.key == None &&
      |Marked(Try(s, prompt).events)| == 1 && Calls(Try(s, prompt).events) == 1
    ensures Try(s, prompt).Done? ==> Marked(Try(s, prompt).events) == []
    ensures Try(s, prompt).Done? && Try(s, prompt).outcome.Text? ==>
      Truthy(Try(s, prompt).after.key) && Calls(Try(s, prompt).events) == 1 && Try(s, prompt).events != [] &&
      Try(s, prompt).events[|Try(s, prompt).events| - 1] == Provide(Try(s, prompt).after.key.value, prompt)
  {
    var a := Try(s, prompt);
    CountsAppend([Acquire], [Provide("", prompt)]);
    if !Truthy(s.key) && !Truthy(PoolReply(s.replies)) {
      assert a.events == [Acquire];
    } else {
      var held := if Truthy(s.key) then s else Session(PoolReply(s.replies), PoolRest(s.replies), s.outcomes);
      var events := (if Truthy(s.key) then [] else [Acquire]) + [Provide(held.key.value, prompt)];
      CountsAppend(if Truthy(s.key) then [] else [Acquire], [Provide(held.key.value, prompt)]);
      CountsAppend(events, [Mark(held.key.value)]);
      assert events[|events| - 1] == Provide(held.key.value, prompt);
    }
  }

  /** Every report in a whole call follows the provider call that used the key, and no call gets an empty key. */
  lemma {:induction false} RunTrace(s: Session, prompt: string, attempts: nat, retries: int)
    ensures MarksFollowUse(Run(s, prompt, attempts, retries).events, prompt)
    ensures KeysPresent(Run(s, prompt, attempts, retries).events)
    decreases retries - attempts
  {
    if attempts < retries {
      TryShape(s, prompt);
      var a := Try(s, prompt);
      if a.Rotate? {
        RunTrace(a.after, prompt, attempts + 1, retries);
        var rest := Run(a.after, prompt, attempts + 1, retries);
        var events := a.events + rest.events;
        assert Run(s, prompt, attempts, retries).events == events;
        forall i | 0 <= i < |events| && events[i].Mark?
          ensures 0 < i && events[i - 1] == Provide(events[i].key, prompt)
        {
          if i >= |a.events| {
            assert events[i] == rest.events[i - |a.events|];
            if i == |a.events| {
              assert false;
            }
            assert events[i - 1] == rest.events[i - 1 - |a.events|];
          }
        }
        forall i | 0 <= i < |events| && events[i].Provide? ensures events[i].key != "" {
          if i >= |a.events| {
            assert events[i] == rest.events[i - |a.events|];
          }
        }
      }
    }
  }

  /**
   * The bounds of a whole call: at most one report, one provider call and one
   * pool request per attempt left, and a report on every attempt means the
   * limit error.
   */
  lemma {:induction false} RunCounts(s: Session, prompt: string, attempts: nat, retries: int)
    ensures |Marked(Run(s, prompt, attempts, retries).events)| <= Budget(attempts, retries)
    ensures Calls(Run(s, prompt, attempts, retries).events) <= Budget(attempts, retries)
    ensures Acquisitions(Run(s, prompt, attempts, retries).events) <= Budget(attempts, retries)
    ensures |Marked(Run(s, prompt, attempts, retries).events)| == Budget(attempts, retries) ==>
      Run(s, prompt, attempts, retries).outcome == Thrown(LimitError)
    decreases retries - attempts
  {
    if attempts < retries {
      TryShape(s, prompt);
      TryOutcome(s, prompt);
      var a := Try(s, prompt);
      if a.Rotate? {
        RunCounts(a.after, prompt, attempts + 1, retries);
        var rest := Run(a.after, prompt, attempts + 1, retries);
        CountsAppend(a.events, rest.events);
        assert Run(s, prompt, attempts, retries) == Final(rest.outcome, rest.after, a.events + rest.events);
      }
    }
  }

  /** A call that succeeds reports fewer keys than its budget and keeps the key its last provider call used. */
  lemma {:induction false} RunSuccess(s: Session, prompt: string, attempts: nat, retries: int)
    requires Run(s, prompt, attempts, retries).outcome.Text?
    ensures var f := Run(s, prompt, attempts, retries);
      |Marked(f.events)| < Budget(attempts, retries) && Truthy(f.after.key) &&
      f.events != [] && f.events[|f.events| - 1] == Provide(f.after.key.value, prompt)
    decreases retries - attempts
  {
    RunCounts(s, prompt, attempts, retries);
    TryOutcome(s, prompt);
    var a := Try(s, prompt);
    if a.Rotate? {
      RunSuccess(a.after, prompt, attempts + 1, retries);
      var rest := Run(a.after, prompt, attempts + 1, retries);
      var events := a.events + rest.events;
      assert Run(s, prompt, attempts, retries) == Final(rest.outcome, rest.after, events);
      assert events[|events| - 1] == rest.events[|rest.events| - 1];
    }
  }

  /** `total` is what a call gives when `events` were made before the remaining `rest` of it. */
  ghost predicate Follows(total: Final, events: seq<Event>, rest: Final) {
    total == Final(rest.outcome, rest.after, events + rest.events)
  }

  /** One pass of the loop either ends the call or leaves the rest of it to the next attempt. */
  lemma RunStep(total: Final, events: seq<Event>, s: Session, prompt: string, attempts: nat, retries: int)
    requires attempts < retries && Follows(total, events, Run(s, prompt, attempts, retries))
    ensures var a := Try(s, prompt);
      if a.Done? then total == Final(a.outcome, a.after, events + a.events)
      else Follows(total, events + a.events, Run(a.after, prompt, attempts + 1, retries))
  {
    var a := Try(s, prompt);
    if a.Rotate? {
      var rest := Run(a.after, prompt, attempts + 1, retries);
      AppendAssoc(events, a.events, rest.events);
    }
  }

  /** A non-positive retry budget throws the limit error with no call at all. */
  lemma NoBudget(s: Session, prompt: string, retries: int)
    requires retries <= 0
    ensures Run(s, prompt, 0, retries) == Final(Thrown(LimitError), s, [])
  {
  }

  /** A held key is reused: no pool request, one provider call, and the key stays held. */
  lemma KeyReuse(s: Session, prompt: string, retries: int, text: Option<string>)
    requires 0 < retries && Truthy(s.key)
    requires ProviderReply(s.outcomes) == Ok(text)
    ensures Run(s, prompt, 0, retries) ==
      Final(Text(TextOrEmpty(text)), s.(outcomes := ProviderRest(s.outcomes)), [Provide(s.key.value, prompt)])
  {
  }

  /**
   * With no key held and none in the pool, the pool-empty error is thrown at
   * once, on any attempt: the first one or one after a rotation.
   */
  lemma PoolEmpty(s: Session, prompt: string, attempts: nat, retries: int)
    requires attempts < retries && !Truthy(s.key) && !Truthy(PoolReply(s.replies))
    ensures Run(s, prompt, attempts, retries) == Final(Thrown(PoolEmptyError), s.(replies := PoolRest(s.replies)), [Acquire])
  {
    PoolEmptyIsFatal();
  }

  /**
   * A failure that is not rotatable is rethrown unchanged, after one provider
   * call and no report; a key taken from the pool for that call stays held.
   */
  lemma NonRotatableFailure(s: Session, prompt: string, attempts: nat, retries: int, e: Failure)
    requires attempts < retries && (Truthy(s.key) || Truthy(PoolReply(s.replies)))
    requires ProviderReply(s.outcomes) == Err(e) && !IsRotatable(e)
    ensures Truthy(s.key) ==>
      Run(s, prompt, attempts, retries) ==
      Final(Thrown(e), s.(outcomes := ProviderRest(s.outcomes)), [Provide(s.key.value, prompt)])
    ensures !Truthy(s.key) ==>
      Run(s, prompt, attempts, retries) ==
      Final(Thrown(e), Session(PoolReply(s.replies), PoolRest(s.replies), ProviderRest(s.outcomes)),
            [Acquire, Provide(PoolReply(s.replies).value, prompt)])
  {
  }

  /** A rotatable failure while a key is held reports that key once, drops it and counts one attempt. */
  lemma RotationStep(s: Session, prompt: string, attempts: nat, retries: int, e: Failure)
    requires attempts < retries && Truthy(s.key)
    requires ProviderReply(s.outcomes) == Err(e) && IsRotatable(e)
    ensures var rest := Run(Session(None, s.replies, ProviderRest(s.outcomes)), prompt, attempts + 1, retries);
      Run(s, prompt, attempts, retries) ==
      Final(rest.outcome, rest.after, [Provide(s.key.value, prompt), Mark(s.key.value)] + rest.events)
  {
  }

  /**
   * A held key refused with a rotatable failure is reported; when the pool
   * then has no key left, and attempts remain, the pool-empty error is thrown.
   */
  lemma RotationThenPoolEmpty(s: Session, prompt: string, attempts: nat, retries: int, e: Failure)
    requires attempts + 1 < retries && Truthy(s.key) && !Truthy(PoolReply(s.replies))
    requires ProviderReply(s.outcomes) == Err(e) && IsRotatable(e)
    ensures Run(s, prompt, attempts, retries) ==
      Final(Thrown(PoolEmptyError), Session(None, PoolRest(s.replies), ProviderRest(s.outcomes)),
            [Provide(s.key.value, prompt), Mark(s.key.value), Acquire])
  {
    RotationStep(s, prompt, attempts, retries, e);
    PoolEmpty(Session(None, s.replies, ProviderRest(s.outcomes)), prompt, attempts + 1, retries);
  }

  /** The pool hands out the non-empty keys `keys`, in this order. */
  ghost predicate Gives(replies: seq<Option<string>>, keys: seq<string>) {
    |keys| <= |replies| && forall i :: 0 <= i < |keys| ==> replies[i] == Some(keys[i]) && keys[i] != ""
  }

  /** The next attempts use the keys `keys`: first the held one, if any, then the pool's. */
  ghost predicate Supplies(s: Session, keys: seq<string>) {
    if Truthy(s.key) then |keys| > 0 && keys[0] == s.key.value && Gives(s.replies, keys[1..])
    else Gives(s.replies, keys)
  }

  /** The provider's first `n` replies are rotatable failures. */
  ghost predicate Rejects(outcomes: seq<Reply>, n: nat) {
    n <= |outcomes| && forall i :: 0 <= i < n ==> outcomes[i].Err? && IsRotatable(outcomes[i].error)
  }

  /** One rotation leaves the remaining keys and rejections for the next attempt. */
  lemma RotateOnce(s: Session, prompt: string, keys: seq<string>, n: nat)
    requires 0 < n && |keys| > 0 && Supplies(s, keys) && Rejects(s.outcomes, n)
    ensures Try(s, prompt).Rotate?
    ensures Try(s, prompt).events ==
      (if Truthy(s.key) then [] else [Acquire]) + [Provide(keys[0], prompt), Mark(keys[0])]
    ensures Supplies(Try(s, prompt).after, keys[1..]) && Rejects(Try(s, prompt).after.outcomes, n - 1)
  {
    var a := Try(s, prompt);
    if !Truthy(s.key) {
      assert PoolReply(s.replies) == Some(keys[0]);
    }
    assert a.after.key == None;
    assert a.after.replies == if Truthy(s.key) then s.replies else s.replies[1..];
    assert a.after.outcomes == s.outcomes[1..];
    assert forall i :: 0 <= i < n - 1 ==> a.after.outcomes[i] == s.outcomes[i + 1];
    if Truthy(s.key) {
      assert Gives(a.after.replies, keys[1..]);
    } else {
      assert forall i :: 0 <= i < |keys| - 1 ==> a.after.replies[i] == s.replies[i + 1] && keys[1..][i] == keys[i + 1];
    }
  }

  /** A call whose first pass rotates, told as that pass's calls followed by the rest of the call. */
  lemma RotatedRun(s: Session, prompt: string, attempts: nat, retries: int, keys: seq<string>, n: nat)
    returns (after: Session, pre: seq<Event>)
    requires attempts < retries && 0 < n && |keys| > 0 && Supplies(s, keys) && Rejects(s.outcomes, n)
    ensures pre == [] || pre == [Acquire]
    ensures Supplies(after, keys[1..]) && Rejects(after.outcomes, n - 1) && after.outcomes == s.outcomes[1..]
    ensures var rest := Run(after, prompt, attempts + 1, retries);
      Run(s, prompt, attempts, retries) ==
      Final(rest.outcome, rest.after, pre + [Provide(keys[0], prompt), Mark(keys[0])] + rest.events)
  {
    RotateOnce(s, prompt, keys, n);
    after := Try(s, prompt).after;
    pre := if Truthy(s.key) then [] else [Acquire];
  }

  /** The calls of one pass that ends with a rotation, with or without a pool request first. */
  lemma PassCounts(pre: seq<Event>, key: string, prompt: string)
    requires pre == [] || pre == [Acquire]
    ensures Marked(pre + [Provide(key, prompt)]) == [] && Calls(pre + [Provide(key, prompt)]) == 1
    ensures Marked(pre + [Provide(key, prompt), Mark(key)]) == [key]
    ensures Calls(pre + [Provide(key, prompt), Mark(key)]) == 1
  {
    CountsAppend(pre, [Provide(key, prompt)]);
    CountsAppend(pre, [Provide(key, prompt), Mark(key)]);
    assert [Provide(key, prompt), Mark(key)][1..] == [Mark(key)];
    assert [Mark(key)][1..] == [];
    assert [Provide(key, prompt)][1..] == [];
  }

  /**
   * N rotatable failures followed by a success, with N below the budget:
   * the success text is returned after exactly N reports, one for each key
   * used, in order, and the key that succeeded is kept.
   */
  lemma {:induction false} RotationsThenSuccess(s: Session, prompt: string, attempts: nat, retries: int, keys: seq<string>, text: Option<string>)
    requires 0 < |keys| && attempts + |keys| <= retries
    requires Supplies(s, keys) && Rejects(s.outcomes, |keys| - 1)
    requires |keys| <= |s.outcomes| && s.outcomes[|keys| - 1] == Ok(text)
    ensures var f := Run(s, prompt, attempts, retries);
      f.outcome == Text(TextOrEmpty(text)) && f.after.key == Some(keys[|keys| - 1]) &&
      Marked(f.events) == keys[..|keys| - 1] && Calls(f.events) == |keys|
    decreases |keys|
  {
    if |keys| == 1 {
      var pre: seq<Event> := if Truthy(s.key) then [] else [Acquire];
      PassCounts(pre, keys[0], prompt);
      if !Truthy(s.key) {
        assert PoolReply(s.replies) == Some(keys[0]);
      }
      assert Try(s, prompt).events == pre + [Provide(keys[0], prompt)];
    } else {
      var after, pre := RotatedRun(s, prompt, attempts, retries, keys, |keys| - 1);
      var rest := Run(after, prompt, attempts + 1, retries);
      RotationsThenSuccess(after, prompt, attempts + 1, retries, keys[1..], text);
      PassCounts(pre, keys[0], prompt);
      CountsAppend(pre + [Provide(keys[0], prompt), Mark(keys[0])], rest.events);
      DropLastCons(keys);
    }
  }

  /**
   * Rotatable failures on every attempt of the budget: the limit error is
   * thrown after exactly one report per attempt, one for each key used, in
   * order, and no key is left held.
   */
  lemma {:induction false} AllRotationsFail(s: Session, prompt: string, attempts: nat, retries: int, keys: seq<string>)
    requires attempts + |keys| == retries
    requires Supplies(s, keys) && Rejects(s.outcomes, |keys|)
    ensures var f := Run(s, prompt, attempts, retries);
      f.outcome == Thrown(LimitError) && Marked(f.events) == keys && Calls(f.events) == |keys| &&
      (|keys| > 0 ==> f.after.key == None)
    decreases |keys|
  {
    if |keys| > 0 {
      var after, pre := RotatedRun(s, prompt, attempts, retries, keys, |keys|);
      var rest := Run(after, prompt, attempts + 1, retries);
      AllRotationsFail(after, prompt, attempts + 1, retries, keys[1..]);
      PassCounts(pre, keys[0], prompt);
      CountsAppend(pre + [Provide(keys[0], prompt), Mark(keys[0])], rest.events);
      assert keys == [keys[0]] + keys[1..];
    }
  }

  /** After a successful call, a second call whose provider accepts the kept key asks the pool for nothing. */
  lemma SecondCallReuses(s: Session, prompt: string, retries: int, prompt2: string, retries2: int)
    requires Run(s, prompt, 0, retries).outcome.Text?
    requires 0 < retries2 && ProviderReply(Run(s, prompt, 0, retries).after.outcomes).Ok?
    ensures var f := Run(s, prompt, 0, retries);
      var g := Run(f.after, prompt2, 0, retries2);
      g.outcome.Text? && g.after.key == f.after.key && g.events == [Provide(f.after.key.value, prompt2)] &&
      Acquisitions(g.events) == 0
  {
    RunSuccess(s, prompt, 0, retries);
    var f := Run(s, prompt, 0, retries);
    KeyReuse(f.after, prompt2, retries2, ProviderReply(f.after.outcomes).text);
  }

  /**
   * The example of a pool with two keys whose first is refused with a 429:
   * the first key is reported, the second one succeeds and is kept.
   */
  lemma TwoKeyExample(prompt: string, answer: string)
    ensures var s := Session(None, [Some("K1"), Some("K2")], [Err(Failure(Some("429 Too Many Requests"))), Ok(Some(answer))]);
      var f := Run(s, prompt, 0, DefaultRetries);
      f.outcome == Text(TextOrEmpty(Some(answer))) && f.after.key == Some("K2") &&
      f.events == [Acquire, Provide("K1", prompt), Mark("K1"), Acquire, Provide("K2", prompt)]
  {
    var s := Session(None, [Some("K1"), Some("K2")], [Err(Failure(Some("429 Too Many Requests"))), Ok(Some(answer))]);
    assert StartsWith("429 Too Many Requests", "429");
    var a := Try(s, prompt);
    assert a == Rotate(Session(None, [Some("K2")], [Ok(Some(answer))]), [Acquire, Provide("K1", prompt), Mark("K1")]);
    var b := Try(a.after, prompt);
    assert b == Done(Text(TextOrEmpty(Some(answer))), Session(Some("K2"), [], []), [Acquire, Provide("K2", prompt)]);
  }

  /** The external world: the credential pool and the provider, each with its queue of replies. */
  class Backend {
    var replies: seq<Option<string>>
    var outcomes: seq<Reply>
    var log: seq<Event>

    constructor (replies: seq<Option<string>>, outcomes: seq<Reply>)
      ensures this.replies == replies && this.outcomes == outcomes && log == []
    {
      this.replies := replies;
      this.outcomes := outcomes;
      log := [];
    }

    /** `supabase.rpc('get_valid_api_key')`: its `data`, or `None` when it reports an error. */
    method GetValidApiKey() returns (data: Option<string>)
      modifies this
      ensures data == PoolReply(old(replies)) && replies == PoolRest(old(replies))
      ensures outcomes == old(outcomes) && log == old(log) + [Acquire]
    {
      data := PoolReply(replies);
      replies := PoolRest(replies);
      log := log + [Acquire];
    }

    /** `supabase.rpc('mark_key_exhausted', { target_key })`; its answer is not looked at. */
    method MarkKeyExhausted(targetKey: string)
      modifies this
      ensures replies == old(replies) && outcomes == old(outcomes) && log == old(log) + [Mark(targetKey)]
    {
      log := log + [Mark(targetKey)];
    }

    /** `ai.models.generateContent` with the given key and prompt. */
    method GenerateContent(apiKey: string, prompt: string) returns (reply: Reply)
      modifies this
      ensures reply == ProviderReply(old(outcomes)) && outcomes == ProviderRest(old(outcomes))
      ensures replies == old(replies) && log == old(log) + [Provide(apiKey, prompt)]
    {
      reply := ProviderReply(outcomes);
      outcomes := ProviderRest(outcomes);
      log := log + [Provide(apiKey, prompt)];
    }
  }

  class GeminiService {
    var currentKey: Option<string>

    ghost function State(env: Backend): Session
      reads this, env
    {
      Session(currentKey, env.replies, env.outcomes)
    }

    constructor ()
      ensures currentKey == None
    {
      currentKey := None;
    }

    /** Asks the pool for a key and holds it, or gives the pool-empty error and leaves the key alone. */
    method GetApiKey(env: Backend) returns (error: Option<Failure>)
      modifies this, env
      ensures var data := PoolReply(old(env.replies));
        if Truthy(data) then error == None && currentKey == data
        else error == Some(PoolEmptyError) && currentKey == old(currentKey)
      ensures env.replies == PoolRest(old(env.replies)) && env.outcomes == old(env.outcomes)
      ensures env.log == old(env.log) + [Acquire]
    {
      var data := env.GetValidApiKey();
      if !Truthy(data) {
        return Some(PoolEmptyError);
      }
      currentKey := data;
      return None;
    }

    /** Reports `key` exhausted and drops the held key. */
    method MarkKeyAsExhausted(key: string, env: Backend)
      modifies this, env
      ensures currentKey == None
      ensures env.replies == old(env.replies) && env.outcomes == old(env.outcomes)
      ensures env.log == old(env.log) + [Mark(key)]
    {
      env.MarkKeyExhausted(key);
      currentKey := None;
    }

    /**
     * One pass of the loop body: the `try` block and its `catch`. It gives
     * the call's result, or `None` when it rotated the key and the loop goes on.
     */
    method AttemptOnce(prompt: string, env: Backend) returns (result: Option<Outcome>)
      modifies this, env
      ensures var a := Try(old(State(env)), prompt);
        (if a.Done? then result == Some(a.outcome) else result == None) &&
        State(env) == a.after && env.log == old(env.log) + a.events
    {
      var error: Option<Failure> := None;
      if !Truthy(currentKey) {
        error := GetApiKey(env);
      }
      if error == None {
        var reply := env.GenerateContent(currentKey.value, prompt);
        match reply
        case Ok(text) =>
          return Some(Text(TextOrEmpty(text)));
        case Err(e) =>
          error := Some(e);
      }
      var e := error.value;
      if IsRotatable(e) && Truthy(currentKey) {
        MarkKeyAsExhausted(currentKey.value, env);
        return None;
      }
      return Some(Thrown(e));
    }

    /** The retry loop; it does what `Run` says, and logs exactly the calls `Run` lists. */
    method GenerateContentWithRotation(prompt: string, env: Backend, retries: int := DefaultRetries) returns (r: Outcome)
      modifies this, env
      ensures var f := Run(old(State(env)), prompt, 0, retries);
        r == f.outcome && State(env) == f.after && env.log == old(env.log) + f.events
    {
      var attempts := 0;
      ghost var total := Run(State(env), prompt, 0, retries);
      ghost var events: seq<Event> := [];
      var result: Option<Outcome> := None;
      while attempts < retries && result.None?
        invariant 0 <= attempts
        invariant env.log == old(env.log) + events
        invariant result.None? ==> Follows(total, events, Run(State(env), prompt, attempts, retries))
        invariant result.Some? ==> total == Final(result.value, State(env), events)
        decreases retries - attempts, if result.None? then 1 else 0
      {
        ghost var before := State(env);
        ghost var step := Try(before, prompt);
        result := AttemptOnce(prompt, env);
        RunStep(total, events, before, prompt, attempts, retries);
        AppendAssoc(old(env.log), events, step.events);
        events := events + step.events;
        if result.None? {
          attempts := attempts + 1;
        }
      }
      if result.None? {
        assert events + [] == events;
        return Thrown(LimitError);
      }
      return result.value;
    }
  }
}

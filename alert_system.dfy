/**
 * The keyword alert registry (src/components/AlertSystem.tsx): an ordered
 * list of rules with add, remove-by-id and toggle-sound-by-id. Each handler
 * computes the new list from the old one; the toasts it shows are left out.
 */
module AlertSystem {
  import opened Types
  import opened Text

  /** `PRIORITY_COLORS`: the highlight colour of each priority. */
  function PriorityColor(p: Priority): (c: string)
    ensures c == "green" || c == "yellow" || c == "red"
  {
    match p
    case Low => "green"
    case Medium => "yellow"
    case High => "red"
  }

  /** Distinct priorities get distinct colours, so a rule's colour tells its priority. */
  lemma PriorityColorInjective(p: Priority, q: Priority)
    ensures PriorityColor(p) == PriorityColor(q) <==> p == q
  {
  }

  /** Why an add is rejected (the two destructive toasts). */
  datatype AddError = EmptyKeyword | DuplicateKeyword

  /** Some rule's keyword equals `keyword` once both are lower-cased. */
  predicate HasKeyword(alerts: seq<Alert>, keyword: string) {
    exists i :: 0 <= i < |alerts| && Lower(alerts[i].keyword) == Lower(keyword)
  }

  /**
   * `handleAddAlert`: reject a keyword that trims to empty, then one that
   * equals an existing keyword after lower-casing (the untrimmed input is
   * compared), else append a rule that stores the keyword as typed, the chosen
   * priority, that priority's colour and sound on. `id` is the caller's
   * `Date.now().toString()`.
   */
  function AddAlert(alerts: seq<Alert>, id: string, keyword: string, priority: Priority)
    : (r: Result<seq<Alert>, AddError>)
    ensures r == Failure(EmptyKeyword) <==> IsBlank(keyword)
    ensures r == Failure(DuplicateKeyword) <==> !IsBlank(keyword) && HasKeyword(alerts, keyword)
    ensures r.Success? ==> |r.value| == |alerts| + 1 && r.value[..|alerts|] == alerts
    ensures r.Success? ==> r.value[|alerts|] == Alert(id, keyword, priority, PriorityColor(priority), true)
  {
    TrimEmptyIffBlank(keyword);
    if Trim(keyword) == [] then Failure(EmptyKeyword)
    else if HasKeyword(alerts, keyword) then Failure(DuplicateKeyword)
    else Success(alerts + [Alert(id, keyword, priority, PriorityColor(priority), true)])
  }

  /** The rule list after an add: the new list, or the old one when the add is rejected. */
  function AlertsAfterAdd(alerts: seq<Alert>, id: string, keyword: string, priority: Priority): seq<Alert> {
    match AddAlert(alerts, id, keyword, priority)
    case Success(r) => r
    case Failure(_) => alerts
  }

  /** A rejected add leaves the list as it was; an accepted one grows it by exactly one rule. */
  lemma AddChangesOnlyOnSuccess(alerts: seq<Alert>, id: string, keyword: string, priority: Priority)
    ensures IsBlank(keyword) ==> AlertsAfterAdd(alerts, id, keyword, priority) == alerts
    ensures HasKeyword(alerts, keyword) ==> AlertsAfterAdd(alerts, id, keyword, priority) == alerts
    ensures !IsBlank(keyword) && !HasKeyword(alerts, keyword) ==>
      AlertsAfterAdd(alerts, id, keyword, priority) ==
        alerts + [Alert(id, keyword, priority, PriorityColor(priority), true)]
  {
    var r := AddAlert(alerts, id, keyword, priority);
    if r.Success? {
      assert r.value == r.value[..|alerts|] + [r.value[|alerts|]];
    }
  }

  /** No two rules have keywords that are equal after lower-casing. */
  predicate KeywordsDistinct(alerts: seq<Alert>) {
    forall i, j :: 0 <= i < j < |alerts| ==> Lower(alerts[i].keyword) != Lower(alerts[j].keyword)
  }

  /** Every keyword has a non-white-space character. */
  predicate KeywordsNonBlank(alerts: seq<Alert>) {
    forall i :: 0 <= i < |alerts| ==> !IsBlank(alerts[i].keyword)
  }

  /** The registry invariant that the add guards keep. */
  predicate RegistryValid(alerts: seq<Alert>) {
    KeywordsDistinct(alerts) && KeywordsNonBlank(alerts)
  }

  /** Adding keeps keywords distinct ignoring case and non-blank. */
  lemma AddPreservesValid(alerts: seq<Alert>, id: string, keyword: string, priority: Priority)
    requires RegistryValid(alerts)
    ensures RegistryValid(AlertsAfterAdd(alerts, id, keyword, priority))
  {
    AddChangesOnlyOnSuccess(alerts, id, keyword, priority);
    var r := AlertsAfterAdd(alerts, id, keyword, priority);
    if r != alerts {
      forall i, j | 0 <= i < j < |r|
        ensures Lower(r[i].keyword) != Lower(r[j].keyword)
      {
        if j == |alerts| {
          assert r[i] == alerts[i];
        } else {
          assert r[i] == alerts[i] && r[j] == alerts[j];
        }
      }
    }
  }

  /** The comparison uses the untrimmed input: " prazo" is no duplicate of "prazo". */
  lemma PaddedKeywordIsNotDuplicate()
    ensures AddAlert([Alert("3", "prazo", Medium, "yellow", true)], "5", " prazo", High).Success?
  {
    var alerts := [Alert("3", "prazo", Medium, "yellow", true)];
    assert !IsJsWhiteSpace('p');
    assert !IsBlank(" prazo") by {
      assert " prazo"[1] == 'p';
    }
    assert Lower(" prazo")[0] == ' ';
    assert Lower("prazo")[0] == 'p';
    assert !HasKeyword(alerts, " prazo");
  }

  /** `handleRemoveAlert`: the rules whose id differs from `id`, in their order. */
  function RemoveAlert(alerts: seq<Alert>, id: string): (r: seq<Alert>)
    ensures forall a :: a in r <==> a in alerts && a.id != id
    ensures |r| <= |alerts|
  {
    if alerts == [] then []
    else (if alerts[0].id == id then [] else [alerts[0]]) + RemoveAlert(alerts[1..], id)
  }

  /** Removing from a concatenation removes from each part: the survivors keep their order. */
  lemma {:induction false} RemoveAppend(a: seq<Alert>, b: seq<Alert>, id: string)
    ensures RemoveAlert(a + b, id) == RemoveAlert(a, id) + RemoveAlert(b, id)
  {
    if a == [] {
      assert a + b == b;
    } else {
      assert (a + b)[1..] == a[1..] + b;
      RemoveAppend(a[1..], b, id);
    }
  }

  /** Removing an id no rule carries changes nothing. */
  lemma {:induction false} RemoveAbsentId(alerts: seq<Alert>, id: string)
    requires forall i :: 0 <= i < |alerts| ==> alerts[i].id != id
    ensures RemoveAlert(alerts, id) == alerts
  {
    if alerts != [] {
      RemoveAbsentId(alerts[1..], id);
    }
  }

  /** Removing the same id twice is removing it once. */
  lemma RemoveIdempotent(alerts: seq<Alert>, id: string)
    ensures RemoveAlert(RemoveAlert(alerts, id), id) == RemoveAlert(alerts, id)
  {
    var r := RemoveAlert(alerts, id);
    forall i | 0 <= i < |r|
      ensures r[i].id != id
    {
      assert r[i] in r;
    }
    RemoveAbsentId(r, id);
  }

  /** Dropping the first rule keeps the registry invariant. */
  lemma TailValid(alerts: seq<Alert>)
    requires alerts != [] && RegistryValid(alerts)
    ensures RegistryValid(alerts[1..])
  {
    var tail := alerts[1..];
    forall i, j | 0 <= i < j < |tail|
      ensures Lower(tail[i].keyword) != Lower(tail[j].keyword)
    {
      assert tail[i] == alerts[i + 1] && tail[j] == alerts[j + 1];
    }
  }

  /** A rule whose keyword clashes with none of a valid list may go in front of it. */
  lemma ConsValid(a: Alert, rest: seq<Alert>)
    requires RegistryValid(rest) && !IsBlank(a.keyword)
    requires forall j :: 0 <= j < |rest| ==> Lower(a.keyword) != Lower(rest[j].keyword)
    ensures RegistryValid([a] + rest)
  {
    var r := [a] + rest;
    forall i, j | 0 <= i < j < |r|
      ensures Lower(r[i].keyword) != Lower(r[j].keyword)
    {
      assert r[j] == rest[j - 1];
      if i > 0 {
        assert r[i] == rest[i - 1];
      }
    }
  }

  /** Remove keeps the registry invariant. */
  lemma {:induction false} RemovePreservesValid(alerts: seq<Alert>, id: string)
    requires RegistryValid(alerts)
    ensures RegistryValid(RemoveAlert(alerts, id))
  {
    if alerts != [] {
      var tail := alerts[1..];
      TailValid(alerts);
      RemovePreservesValid(tail, id);
      var rest := RemoveAlert(tail, id);
      if alerts[0].id != id {
        forall j | 0 <= j < |rest|
          ensures Lower(alerts[0].keyword) != Lower(rest[j].keyword)
        {
          assert rest[j] in tail;
          var k :| 0 <= k < |tail| && tail[k] == rest[j];
          assert tail[k] == alerts[k + 1];
        }
        ConsValid(alerts[0], rest);
      }
    }
  }

  /**
   * `handleToggleSound`: the same rules in the same order; a rule with that id
   * has its `soundEnabled` flipped, and nothing else about any rule changes.
   */
  function ToggleSound(alerts: seq<Alert>, id: string): (r: seq<Alert>)
    ensures |r| == |alerts|
    ensures forall i :: 0 <= i < |r| ==> r[i].(soundEnabled := alerts[i].soundEnabled) == alerts[i]
    ensures forall i :: 0 <= i < |r| ==> (r[i].soundEnabled != alerts[i].soundEnabled <==> alerts[i].id == id)
  {
    if alerts == [] then []
    else
      var a := alerts[0];
      [if a.id == id then a.(soundEnabled := !a.soundEnabled) else a] + ToggleSound(alerts[1..], id)
  }

  /** Toggling the same id twice gives back the original list. */
  lemma ToggleTwice(alerts: seq<Alert>, id: string)
    ensures ToggleSound(ToggleSound(alerts, id), id) == alerts
  {
    var r := ToggleSound(ToggleSound(alerts, id), id);
    forall i | 0 <= i < |alerts|
      ensures r[i] == alerts[i]
    {
    }
  }

  /** Toggling keeps the registry invariant (keywords are untouched). */
  lemma TogglePreservesValid(alerts: seq<Alert>, id: string)
    requires RegistryValid(alerts)
    ensures RegistryValid(ToggleSound(alerts, id))
  {
    var r := ToggleSound(alerts, id);
    assert forall i :: 0 <= i < |r| ==> r[i].keyword == alerts[i].keyword;
  }
}

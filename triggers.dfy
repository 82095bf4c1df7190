/** The installable triggers of the script project that belong to the user
    running it, as `ScriptApp.getProjectTriggers()` lists them: a list in
    which each trigger has an id of its own.  Triggers other editors of the
    project installed are not in the list and are not modelled. */
module Triggers {

  datatype TriggerEvent = SpreadsheetFormSubmit | OtherEvent(kind: string)

  datatype Trigger = Trigger(id: nat, handler: string, event: TriggerEvent)

  predicate DistinctIds(ts: seq<Trigger>) {
    forall i, j :: 0 <= i < j < |ts| ==> ts[i].id != ts[j].id
  }

  /** The list after deleting the trigger with id `id`; the others keep
      their order (`WithoutAppend`). */
  function Without(ts: seq<Trigger>, id: nat): (r: seq<Trigger>)
    ensures |r| <= |ts|
    ensures forall t :: t in r <==> t in ts && t.id != id
    ensures DistinctIds(ts) ==> DistinctIds(r)
  {
    if ts == [] then []
    else if ts[0].id == id then Without(ts[1..], id)
    else [ts[0]] + Without(ts[1..], id)
  }

  lemma {:induction false} WithoutAbsent(ts: seq<Trigger>, id: nat)
    requires forall k :: 0 <= k < |ts| ==> ts[k].id != id
    ensures Without(ts, id) == ts
  {
    if ts != [] {
      WithoutAbsent(ts[1..], id);
    }
  }

  /** Deleting works element by element, so the triggers that remain keep
      their relative order: deleting from a concatenation concatenates what
      remains of each part. */
  lemma {:induction false} WithoutAppend(a: seq<Trigger>, b: seq<Trigger>, id: nat)
    ensures Without(a + b, id) == Without(a, id) + Without(b, id)
  {
    if a == [] {
      assert a + b == b;
    } else {
      assert (a + b)[0] == a[0];
      assert (a + b)[1..] == a[1..] + b;
      WithoutAppend(a[1..], b, id);
    }
  }

  /** With distinct ids, deleting the first trigger leaves the rest. */
  lemma WithoutFirst(ts: seq<Trigger>)
    requires DistinctIds(ts) && ts != []
    ensures Without(ts, ts[0].id) == ts[1..]
  {
    WithoutAbsent(ts[1..], ts[0].id);
  }

  /** What a trigger does, without its id. */
  function Bindings(ts: seq<Trigger>): (r: seq<(string, TriggerEvent)>)
    ensures |r| == |ts|
    ensures forall k :: 0 <= k < |ts| ==> r[k] == (ts[k].handler, ts[k].event)
  {
    if ts == [] then [] else [(ts[0].handler, ts[0].event)] + Bindings(ts[1..])
  }
}

/** The toast hook: a counter shared by every caller numbers the toasts, a
    new toast goes after the ones on screen, and a timer later dismisses it
    by id. */
module Toast {
  import opened Wrappers
  import opened Js

  datatype ToastVariant = Default | Destructive

  datatype Toast = Toast(
    id: string,
    title: string,
    description: Option<string>,
    variant: ToastVariant)

  /** The id of the toast made when the counter reads `n`. */
  function ToastId(n: nat): string {
    "toast-" + NatToString(n)
  }

  /** Toasts made at different counter values have different ids. */
  lemma ToastIdInjective(m: nat, n: nat)
    ensures ToastId(m) == ToastId(n) <==> m == n
  {
    PrefixedNatInjective("toast-", m, n);
  }

  /** No toast carries an id the counter has not handed out yet. */
  ghost predicate IdsBelow(ts: seq<Toast>, n: nat) {
    forall i, k: nat :: 0 <= i < |ts| && k >= n ==> ts[i].id != ToastId(k)
  }

  ghost predicate DistinctIds(ts: seq<Toast>) {
    forall i, j :: 0 <= i < j < |ts| ==> ts[i].id != ts[j].id
  }

  function NotToast(id: string): Toast -> bool {
    (t: Toast) => t.id != id
  }

  /** The list after the timer for `id` fires. */
  function Dismissed(ts: seq<Toast>, id: string): (r: seq<Toast>)
    ensures forall t :: t in r <==> t in ts && t.id != id
    ensures |r| <= |ts|
  {
    Filter(ts, NotToast(id))
  }

  /** Dismissing keeps the ids distinct. */
  lemma {:induction false} DismissedDistinct(ts: seq<Toast>, id: string)
    requires DistinctIds(ts)
    ensures DistinctIds(Dismissed(ts, id))
  {
    if ts != [] {
      var rest := Dismissed(ts[1..], id);
      assert DistinctIds(ts[1..]);
      DismissedDistinct(ts[1..], id);
      if ts[0].id != id {
        assert Dismissed(ts, id) == [ts[0]] + rest;
        FirstIdUnique(ts);
        forall j | 0 <= j < |rest| ensures ts[0].id != rest[j].id {
          assert rest[j] in ts[1..];
        }
      } else {
        assert Dismissed(ts, id) == rest;
      }
    }
  }

  lemma FirstIdUnique(ts: seq<Toast>)
    requires ts != [] && DistinctIds(ts)
    ensures forall t :: t in ts[1..] ==> t.id != ts[0].id
  {
    forall t | t in ts[1..] ensures t.id != ts[0].id {
      var k :| 0 <= k < |ts[1..]| && ts[1..][k] == t;
      assert ts[k + 1] == t;
    }
  }

  /** Dismissing keeps the rest in order: a list made of two parts is
      dismissed part by part. */
  lemma DismissedAppend(a: seq<Toast>, b: seq<Toast>, id: string)
    ensures Dismissed(a + b, id) == Dismissed(a, id) + Dismissed(b, id)
  {
    FilterAppend(a, b, NotToast(id));
  }

  /** A single toast goes exactly when it has the id. */
  lemma DismissedOne(t: Toast, id: string)
    ensures Dismissed([t], id) == if t.id == id then [] else [t]
  {
    assert Filter([t], NotToast(id)) == (if t.id != id then [t] else []) + Filter([t][1..], NotToast(id));
    assert [t][1..] == [];
  }

  /** Dismissing a toast that nothing else shares the id with gives back the
      list from before it was shown: the others stay, in their order. */
  lemma ShowThenDismiss(ts: seq<Toast>, t: Toast)
    requires forall i :: 0 <= i < |ts| ==> ts[i].id != t.id
    ensures Dismissed(ts + [t], t.id) == ts
  {
    FilterAppend(ts, [t], NotToast(t.id));
    FilterAll(ts, NotToast(t.id));
    assert [t][1..] == [];
  }

  /** The counter (`toastCount`, shared by the module) and the list of one
      hook instance. */
  class Toaster {
    var toastCount: nat
    var toasts: seq<Toast>

    ghost predicate Valid()
      reads this
    {
      IdsBelow(toasts, toastCount) && DistinctIds(toasts)
    }

    /** The counter starts at 0 and the list empty. */
    constructor()
      ensures toastCount == 0 && toasts == [] && Valid()
    {
      toastCount := 0;
      toasts := [];
    }

    /** `toast`: the id uses the counter before it is incremented, the
        variant defaults to `Default`, and the toast is appended. */
    method Show(title: string, description: Option<string>, variant: Option<ToastVariant>)
      returns (id: string)
      requires Valid()
      modifies this
      ensures Valid()
      ensures id == ToastId(old(toastCount)) && toastCount == old(toastCount) + 1
      ensures forall i :: 0 <= i < |old(toasts)| ==> old(toasts)[i].id != id
      ensures toasts == old(toasts) +
        [Toast(id, title, description, if variant.Some? then variant.value else Default)]
    {
      id := ToastId(toastCount);
      var t := Toast(id, title, description, if variant.Some? then variant.value else Default);
      forall k: nat | k >= toastCount + 1 ensures id != ToastId(k) {
        ToastIdInjective(toastCount, k);
      }
      toasts := toasts + [t];
      toastCount := toastCount + 1;
    }

    /** The timer's callback: the toast with that id leaves the list. */
    method Dismiss(id: string)
      requires Valid()
      modifies this`toasts
      ensures Valid()
      ensures toasts == Dismissed(old(toasts), id)
    {
      DismissedDistinct(toasts, id);
      ghost var before := toasts;
      toasts := Dismissed(toasts, id);
      forall i, k: nat | 0 <= i < |toasts| && k >= toastCount ensures toasts[i].id != ToastId(k) {
        assert toasts[i] in before;
      }
    }
  }
}

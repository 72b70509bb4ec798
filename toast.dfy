/**
 * The toast hook (components/ui/use-toast.tsx): a list of notifications.
 * Each new toast gets an `onOpenChange` handler that dismisses it when it is
 * closed; dismissing a toast takes that handler away again.
 */
module Toast {
  import opened Text
  import opened Lists

  /** `ToastProps`; `variant` is `None` when it is not given. */
  datatype ToastProps = ToastProps(title: JsString, description: Option<JsString>, variant: Option<JsString>)

  /** A toast's `onOpenChange`: the closure `showToast` makes, or `undefined`. */
  datatype OpenChangeHandler = NoHandler | DismissOnClose(id: JsString)

  /** `ToasterToast` */
  datatype ToasterToast = ToasterToast(props: ToastProps, id: JsString, onOpenChange: OpenChangeHandler)

  /** `removeToast`'s filter: the toasts with `id` go, the others stay as often as they were; `Filter` keeps their order (`Lists.FilterAppend`). */
  function WithoutToast(toasts: seq<ToasterToast>, id: JsString): (r: seq<ToasterToast>)
    ensures forall t :: t in r <==> t in toasts && t.id != id
    ensures forall t: ToasterToast :: t.id != id ==> multiset(r)[t] == multiset(toasts)[t]
  {
    var keep := (t: ToasterToast) => t.id != id;
    FilterKeepsCounts(toasts, keep);
    Filter(toasts, keep)
  }

  /** Removing an id no toast has changes nothing. */
  lemma RemoveAbsent(toasts: seq<ToasterToast>, id: JsString)
    requires forall i :: 0 <= i < |toasts| ==> toasts[i].id != id
    ensures WithoutToast(toasts, id) == toasts
  {
    FilterKeepsAll(toasts, (t: ToasterToast) => t.id != id);
  }

  /** `dismiss`'s map: the toasts with `id` lose their handler; order, length and the rest stay. */
  function Dismissed(toasts: seq<ToasterToast>, id: JsString): (r: seq<ToasterToast>)
    ensures |r| == |toasts|
    ensures forall i :: 0 <= i < |toasts| ==>
      r[i] == toasts[i].(onOpenChange := r[i].onOpenChange) &&
      r[i].onOpenChange == (if toasts[i].id == id then NoHandler else toasts[i].onOpenChange)
  {
    Map(toasts, (t: ToasterToast) => if t.id == id then t.(onOpenChange := NoHandler) else t)
  }

  /** Dismissing twice is dismissing once. */
  lemma DismissIdempotent(toasts: seq<ToasterToast>, id: JsString)
    ensures Dismissed(Dismissed(toasts, id), id) == Dismissed(toasts, id)
  {
  }

  /** What calling a toast's `onOpenChange(open)` does to the list. */
  function AfterOpenChange(toasts: seq<ToasterToast>, handler: OpenChangeHandler, open: bool): (r: seq<ToasterToast>)
    ensures open || handler.NoHandler? ==> r == toasts
    ensures |r| == |toasts|
  {
    if !open && handler.DismissOnClose? then Dismissed(toasts, handler.id) else toasts
  }

  /** Closing a toast shown by `showToast` takes its handler away, and closing it again changes nothing. */
  lemma CloseTwice(toasts: seq<ToasterToast>, k: int)
    requires 0 <= k < |toasts| && toasts[k].onOpenChange == DismissOnClose(toasts[k].id)
    ensures var once := AfterOpenChange(toasts, toasts[k].onOpenChange, false);
      once[k].onOpenChange == NoHandler &&
      AfterOpenChange(once, once[k].onOpenChange, false) == once
  {
  }

  /** The hook's state. */
  class Toaster {
    var toasts: seq<ToasterToast>

    constructor ()
      ensures toasts == []
    {
      toasts := [];
    }

    /**
     * `showToast(props)`, with `id` standing for the random base-36 id:
     * appends one toast that dismisses itself when closed.
     */
    method ShowToast(props: ToastProps, id: JsString)
      modifies this
      ensures toasts == old(toasts) + [ToasterToast(props, id, DismissOnClose(id))]
    {
      var newToast := ToasterToast(props, id, DismissOnClose(id));
      toasts := toasts + [newToast];
    }

    /** `removeToast(id)` */
    method RemoveToast(id: JsString)
      modifies this
      ensures toasts == WithoutToast(old(toasts), id)
    {
      toasts := WithoutToast(toasts, id);
    }

    /** `dismiss(id)` */
    method Dismiss(id: JsString)
      modifies this
      ensures toasts == Dismissed(old(toasts), id)
    {
      toasts := Dismissed(toasts, id);
    }

    /** Calls a toast's `onOpenChange(open)`: only a close with a handler dismisses. */
    method OpenChange(handler: OpenChangeHandler, open: bool)
      modifies this
      ensures toasts == AfterOpenChange(old(toasts), handler, open)
    {
      if handler.DismissOnClose? && !open {
        Dismiss(handler.id);
      }
    }
  }
}

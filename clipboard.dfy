/** The clipboard guard of `src/utils/clipboard.ts`: a copy puts a secret on
    the system clipboard and arms one module-wide timer that later clears
    the clipboard, but only if it still holds that secret.

    The platform clipboard and the pending timer are the two fields of a
    `ClipboardGuard`. Whether each platform call succeeds is a parameter;
    the passage of time is the explicit `TimerFires` step. */
module Clipboard {
  import opened Wrappers

  /** `DEFAULT_CLEAR_DELAY`, in milliseconds. */
  const DefaultClearDelay: int := 30 * 1000

  /** A scheduled clear: the text it will compare against, and its delay. */
  datatype Timer = Timer(text: string, delay: int)

  /** Which awaited step of a copy threw. */
  datatype ClipboardError = CopyFailed | ToastFailed

  class ClipboardGuard {
    /** The system clipboard; `None` when it holds no text. */
    var clipboard: Option<string>
    /** `clearTimer`; `None` is `null`. */
    var pending: Option<Timer>

    constructor(initial: Option<string>)
      ensures clipboard == initial && pending == None
    {
      clipboard := initial;
      pending := None;
    }

    /** `copyToClipboardWithClear`: cancels the previous timer, copies, shows
        the success toast and only then arms a new timer. A failing copy
        leaves the clipboard alone; a failing toast comes after the copy. In
        both cases the error is rethrown and no timer is left pending. */
    method CopyToClipboardWithClear(text: string, copyOk: bool, toastOk: bool,
                                    clearDelay: int := DefaultClearDelay)
      returns (r: Result<(), ClipboardError>)
      modifies this
      ensures r == if !copyOk then Err(CopyFailed) else if !toastOk then Err(ToastFailed) else Ok(())
      ensures clipboard == if copyOk then Some(text) else old(clipboard)
      ensures pending == if r.Ok? then Some(Timer(text, clearDelay)) else None
    {
      if pending.Some? {
        pending := None;
      }
      if !copyOk {
        return Err(CopyFailed);
      }
      clipboard := Some(text);
      if !toastOk {
        return Err(ToastFailed);
      }
      pending := Some(Timer(text, clearDelay));
      return Ok(());
    }

    /** The timer callback: reads the clipboard and clears it only if it
        still holds the copied text. Read and clear failures are swallowed,
        and the timer is gone afterwards whatever happened. */
    method TimerFires(readOk: bool, clearOk: bool)
      requires pending.Some?
      modifies this
      ensures pending == None
      ensures clipboard ==
        if readOk && clearOk && old(clipboard) == Some(old(pending).value.text) then None
        else old(clipboard)
    {
      var text := pending.value.text;
      if readOk {
        var currentText := clipboard;
        if currentText == Some(text) && clearOk {
          clipboard := None;
        }
      }
      pending := None;
    }

    /** `cancelClipboardClear`: drops the timer, never touches the
        clipboard, and doing it twice is doing it once. */
    method CancelClipboardClear()
      modifies this
      ensures pending == None && clipboard == old(clipboard)
    {
      if pending.Some? {
        pending := None;
      }
    }

    /** Something outside the guard (the user) puts text on the clipboard. */
    method ExternalCopy(text: string)
      modifies this
      ensures clipboard == Some(text) && pending == old(pending)
    {
      clipboard := Some(text);
    }
  }

  /** What a caller can conclude from the contracts: an untouched copy is
      cleared on expiry, a later manual copy is not clobbered, and a second
      copy replaces the first timer. */
  method ExpiryScenarios() {
    var g := new ClipboardGuard(None);
    var r := g.CopyToClipboardWithClear("secret123", true, true);
    assert g.clipboard == Some("secret123") && g.pending == Some(Timer("secret123", 30000));
    g.TimerFires(true, true);
    assert g.clipboard == None && g.pending == None;

    r := g.CopyToClipboardWithClear("A", true, true, 1000);
    g.ExternalCopy("B");
    g.TimerFires(true, true);
    assert g.clipboard == Some("B");

    r := g.CopyToClipboardWithClear("A", true, true);
    r := g.CopyToClipboardWithClear("C", true, true);
    assert g.pending == Some(Timer("C", DefaultClearDelay));
    g.CancelClipboardClear();
    g.CancelClipboardClear();
    assert g.pending == None && g.clipboard == Some("C");
  }
}

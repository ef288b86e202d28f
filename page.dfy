/**
 * The page's mutable state and its event handlers: the applied and stored
 * theme, the menu markers, the notification elements attached to the body,
 * the dialogs attached to the body, and the timer callbacks still pending.
 */
module PageState {
  import opened Wrappers
  import opened Theme
  import opened Notices
  import opened Ringtone

  /** A notification element: its identity, text, type (`notification <type>`) and background colour. */
  datatype Notification = Notification(id: nat, msg: Msg, kind: string, colour: string)

  /**
   * A pending timer callback. `Expire(id)` is the delayed self-removal of one
   * notification element; `DownloadReady` is the callback of the simulated
   * download. The slide-in and slide-out transforms are not modelled.
   */
  datatype Timer = Expire(id: nat) | DownloadReady

  /** An open dialog; only the ringtone dialog has sliders. */
  datatype Modal = Modal(id: nat, variant: Variant, ringtone: Option<Sliders>)

  /** Where inside a dialog a click lands: the backdrop itself, the close control, or the content panel. */
  datatype ClickTarget = Backdrop | CloseButton | Content

  predicate Attached(ms: seq<Modal>, id: nat) {
    exists i :: 0 <= i < |ms| && ms[i].id == id
  }

  predicate DistinctIds(ms: seq<Modal>) {
    forall i, j :: 0 <= i < j < |ms| ==> ms[i].id != ms[j].id
  }

  /** `document.body.removeChild(modal)`: the dialog with identity `id` is removed, every other one stays. */
  function Without(ms: seq<Modal>, id: nat): (r: seq<Modal>)
    ensures forall i :: 0 <= i < |r| ==> r[i] in ms && r[i].id != id
    ensures forall i :: 0 <= i < |ms| && ms[i].id != id ==> ms[i] in r
    ensures !Attached(ms, id) ==> r == ms
  {
    if ms == [] then []
    else
      var rest := Without(ms[1..], id);
      assert !Attached(ms, id) ==> !Attached(ms[1..], id) by {
        if i :| 0 <= i < |ms[1..]| && ms[1..][i].id == id {
          assert ms[i + 1].id == id;
        }
      }
      if ms[0].id == id then rest else [ms[0]] + rest
  }

  /** Removing a dialog keeps the identities distinct. */
  lemma {:induction false} WithoutKeepsDistinct(ms: seq<Modal>, id: nat)
    requires DistinctIds(ms)
    ensures DistinctIds(Without(ms, id))
  {
    if ms != [] {
      var rest := Without(ms[1..], id);
      WithoutKeepsDistinct(ms[1..], id);
      if ms[0].id != id {
        forall k | 0 <= k < |rest| ensures rest[k].id != ms[0].id {
          var i :| 0 <= i < |ms[1..]| && ms[1..][i] == rest[k];
          assert ms[i + 1] == rest[k];
        }
        var r := [ms[0]] + rest;
        forall i, j | 0 <= i < j < |r| ensures r[i].id != r[j].id {
          if i > 0 {
            assert r[i] == rest[i - 1] && r[j] == rest[j - 1];
          }
        }
      }
    }
  }

  /** With distinct identities, closing an attached dialog takes out exactly that one. */
  lemma {:induction false} WithoutRemovesOne(ms: seq<Modal>, id: nat)
    requires DistinctIds(ms) && Attached(ms, id)
    ensures |Without(ms, id)| == |ms| - 1
  {
    if ms[0].id == id {
      assert !Attached(ms[1..], id);
    } else {
      var i :| 0 <= i < |ms| && ms[i].id == id;
      assert ms[1..][i - 1].id == id;
      assert DistinctIds(ms[1..]);
      WithoutRemovesOne(ms[1..], id);
    }
  }

  /** The position `k` taken out of `s`. */
  lemma OthersRemain<T>(s: seq<T>, k: nat, x: T)
    requires k < |s| && x in s && s[k] != x
    ensures x in s[..k] + s[k + 1..]
  {
  }

  class Page {
    var theme: string                     // the `data-theme` attribute of the root element
    var stored: Option<string>            // the storage entry `theme`
    var glyph: Glyph                      // the text of the theme toggle
    var hamburgerActive: bool             // `active` on the hamburger
    var menuActive: bool                  // `active` on the navigation menu
    var notifications: seq<Notification>  // notification elements attached to the body
    var modals: seq<Modal>                // dialogs attached to the body
    var timers: seq<Timer>                // pending timer callbacks
    var nextId: nat                       // identity of the next element created

    /**
     * At most one notification is attached, and its removal is pending; the
     * glyph follows the theme; the applied theme is what a reload would apply;
     * the two menu markers agree; every identity in use is older than `nextId`.
     */
    ghost predicate Valid()
      reads this
    {
      && glyph == GlyphFor(theme)
      && theme == InitialTheme(stored)
      && hamburgerActive == menuActive
      && |notifications| <= 1
      && (forall n :: n in notifications ==> n.id < nextId && Expire(n.id) in timers)
      && (forall m :: m in modals ==> m.id < nextId && (m.ringtone.Some? <==> m.variant == RingtoneMaker))
      && DistinctIds(modals)
      && (forall t :: t in timers && t.Expire? ==> t.id < nextId)
    }

    /** Page load with the given storage entry: the theme is applied and its glyph set; nothing else is shown. */
    constructor (storedTheme: Option<string>)
      ensures Valid()
      ensures stored == storedTheme && theme == InitialTheme(storedTheme) && glyph == GlyphFor(theme)
      ensures !menuActive && notifications == [] && modals == [] && timers == []
    {
      stored := storedTheme;
      theme := InitialTheme(storedTheme);
      glyph := GlyphFor(InitialTheme(storedTheme));
      hamburgerActive, menuActive := false, false;
      notifications, modals, timers := [], [], [];
      nextId := 0;
    }

    /** A click on the theme toggle: flip, store the same value, update the glyph. */
    method ToggleTheme()
      requires Valid()
      modifies this
      ensures Valid()
      ensures theme == Toggled(old(theme)) && stored == Some(theme) && glyph == GlyphFor(theme)
      ensures menuActive == old(menuActive) && notifications == old(notifications)
      ensures modals == old(modals) && timers == old(timers) && nextId == old(nextId)
    {
      var newTheme := Toggled(theme);
      theme := newTheme;
      stored := Some(newTheme);
      glyph := GlyphFor(newTheme);
    }

    /** A click on the hamburger: both markers flip together. */
    method ToggleMenu()
      requires Valid()
      modifies this
      ensures Valid()
      ensures hamburgerActive == !old(hamburgerActive) && menuActive == !old(menuActive)
      ensures theme == old(theme) && stored == old(stored) && notifications == old(notifications)
      ensures modals == old(modals) && timers == old(timers) && nextId == old(nextId)
    {
      hamburgerActive := !hamburgerActive;
      menuActive := !menuActive;
    }

    /**
     * `showNotification(message, type)`: the attached notification is removed,
     * a new one is attached and its removal is scheduled. No earlier pending
     * removal refers to the new element.
     */
    method ShowNotification(msg: Msg, kind: string)
      requires Valid()
      modifies this
      ensures Valid()
      ensures notifications == [Notification(old(nextId), msg, kind, Colour(kind))]
      ensures timers == old(timers) + [Expire(old(nextId))]
      ensures forall t :: t in old(timers) && t.Expire? ==> t.id != notifications[0].id
      ensures nextId == old(nextId) + 1
      ensures theme == old(theme) && stored == old(stored) && menuActive == old(menuActive)
      ensures modals == old(modals)
    {
      if |notifications| > 0 {
        notifications := notifications[1..];
      }
      var n := Notification(nextId, msg, kind, Colour(kind));
      notifications := notifications + [n];
      timers := timers + [Expire(nextId)];
      nextId := nextId + 1;
    }

    /**
     * The event loop runs pending callback `k`; timers may fire in any order.
     * A removal detaches its own notification if that one is still attached,
     * and nothing else; the download callback shows the success notification.
     */
    method FireTimer(k: nat)
      requires Valid() && k < |timers|
      modifies this
      ensures Valid()
      ensures old(timers[k]).Expire? ==>
        && timers == old(timers[..k] + timers[k + 1..])
        && nextId == old(nextId)
        && notifications == (if old(notifications) != [] && old(notifications[0].id) == old(timers[k]).id
                             then [] else old(notifications))
      ensures old(timers[k]).DownloadReady? ==>
        && timers == old(timers[..k] + timers[k + 1..]) + [Expire(old(nextId))]
        && nextId == old(nextId) + 1
        && notifications == [Notification(old(nextId), ReadyToDownload, SUCCESS, GREEN)]
      ensures theme == old(theme) && stored == old(stored) && menuActive == old(menuActive)
      ensures modals == old(modals)
    {
      var t := timers[k];
      ghost var before := timers;
      timers := timers[..k] + timers[k + 1..];
      match t
      case Expire(id) =>
        if notifications != [] && notifications[0].id == id {
          notifications := [];
        } else {
          forall n | n in notifications ensures Expire(n.id) in timers {
            OthersRemain(before, k, Expire(n.id));
          }
        }
      case DownloadReady =>
        forall n | n in notifications ensures Expire(n.id) in timers {
          OthersRemain(before, k, Expire(n.id));
        }
        ShowNotification(ReadyToDownload, SUCCESS);
    }

    /**
     * A click on the download button with the text field holding `input`:
     * the first notice is shown at once; for an accepted URL the success
     * notice is left to a timer.
     */
    method OnDownloadClick(input: string)
      requires Valid()
      modifies this
      ensures Valid()
      ensures notifications == [Notification(old(nextId), DownloadNotices(input)[0].msg,
                                             DownloadNotices(input)[0].kind, Colour(DownloadNotices(input)[0].kind))]
      ensures timers == old(timers) + [Expire(old(nextId))]
                        + (if |DownloadNotices(input)| == 2 then [DownloadReady] else [])
      ensures nextId == old(nextId) + 1
      ensures theme == old(theme) && stored == old(stored) && menuActive == old(menuActive)
      ensures modals == old(modals)
    {
      var notices := DownloadNotices(input);
      ShowNotification(notices[0].msg, notices[0].kind);
      if |notices| == 2 {
        timers := timers + [DownloadReady];
      }
    }

    /**
     * Opens a dialog of the given variant on top of those already open; a
     * ringtone dialog gets new sliders at 0 and 30.
     */
    method OpenModal(v: Variant) returns (m: Modal)
      requires Valid()
      modifies this
      ensures Valid()
      ensures m.id == old(nextId) && m.variant == v && !Attached(old(modals), m.id)
      ensures modals == old(modals) + [m] && nextId == old(nextId) + 1
      ensures m.ringtone.Some? ==> fresh(m.ringtone.value) && m.ringtone.value.Valid()
                                   && m.ringtone.value.Values() == INITIAL
      ensures theme == old(theme) && stored == old(stored) && menuActive == old(menuActive)
      ensures notifications == old(notifications) && timers == old(timers)
    {
      var sliders: Option<Sliders> := None;
      if v == RingtoneMaker {
        var s := new Sliders();
        sliders := Some(s);
      }
      m := Modal(nextId, v, sliders);
      modals := modals + [m];
      nextId := nextId + 1;
    }

    /** A click on a quick-option button with the given `data-type`. */
    method OnOptionClick(tag: string) returns (dialogs: seq<Modal>)
      requires Valid()
      modifies this
      ensures Valid()
      ensures var r := HandleOption(tag);
        && (r.notices == [] ==> notifications == old(notifications) && timers == old(timers))
        && (r.notices != [] ==> notifications == [Notification(old(nextId), r.notices[0].msg, INFO, BLUE)])
        && (r.notices != [] ==> timers == old(timers) + [Expire(old(nextId))])
        && |dialogs| == |r.opens| && (forall i :: 0 <= i < |dialogs| ==> dialogs[i].variant == r.opens[i])
      ensures modals == old(modals) + dialogs
      ensures forall i :: 0 <= i < |dialogs| ==>
        && !Attached(old(modals), dialogs[i].id)
        && (dialogs[i].ringtone.Some? ==> fresh(dialogs[i].ringtone.value) && dialogs[i].ringtone.value.Valid()
                                          && dialogs[i].ringtone.value.Values() == INITIAL)
      ensures theme == old(theme) && stored == old(stored) && menuActive == old(menuActive)
    {
      var r := HandleOption(tag);
      if r.notices != [] {
        ShowNotification(r.notices[0].msg, r.notices[0].kind);
      }
      dialogs := [];
      if r.opens != [] {
        var m := OpenModal(r.opens[0]);
        dialogs := [m];
      }
    }

    /**
     * A click inside the dialog `id`. The close control's listener removes the
     * dialog; the dialog's own listener removes it only when the click target
     * is the dialog element itself, the backdrop. Other dialogs stay.
     */
    method ClickModal(id: nat, target: ClickTarget) returns (closed: bool)
      requires Valid()
      modifies this
      ensures Valid()
      ensures closed <==> Attached(old(modals), id) && target != Content
      ensures modals == (if closed then Without(old(modals), id) else old(modals))
      ensures closed ==> |modals| == |old(modals)| - 1
      ensures theme == old(theme) && stored == old(stored) && menuActive == old(menuActive)
      ensures notifications == old(notifications) && timers == old(timers) && nextId == old(nextId)
    {
      closed := false;
      if Attached(modals, id) {
        WithoutKeepsDistinct(modals, id);
        WithoutRemovesOne(modals, id);
        if target == CloseButton {
          modals := Without(modals, id);
          closed := true;
        }
        if target == Backdrop {
          modals := Without(modals, id);
          closed := true;
        }
      }
    }
  }
}

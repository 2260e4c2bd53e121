/** Toast notifications: the provider's list of open notifications, the
    per-kind presets of the convenience helpers, the defaults a notification
    takes for what its caller left out, and its draining progress bar. */
module Notify {
  import opened Wrappers
  import opened Sequences

  datatype Kind = Success | Error | Warning | Info

  datatype Position = Top | Bottom | TopLeft | TopRight | BottomLeft | BottomRight

  /** What a caller passes: the kind and the message, and the optional
      settings it chose to give (`None` where the key is left out). The
      action buttons and the dismiss callback are functions of the page and
      are not part of the model. */
  datatype Request = Request(
    kind: Kind, message: string, caption: Option<string>, position: Option<Position>,
    timeout: Option<int>, progress: Option<bool>, multiline: Option<bool>)

  /** An open notification: the request with the id it was given. */
  datatype Notice = Notice(id: string, request: Request)

  // ---------------------------------------------------------------- presets

  /** The optional settings a helper's caller may add. */
  datatype Options = Options(
    caption: Option<string>, position: Option<Position>, timeout: Option<int>,
    progress: Option<bool>, multiline: Option<bool>)

  const NoOptions := Options(None, None, None, None, None)

  /** The position and timeout each helper presets. */
  function PresetPosition(kind: Kind): Position {
    match kind
    case Success => Bottom
    case Error => TopRight
    case Warning => TopRight
    case Info => TopRight
  }

  function PresetTimeout(kind: Kind): int {
    match kind
    case Success => 4000
    case Error => 5000
    case Warning => 5000
    case Info => 4000
  }

  /** `{ type, message, position, timeout, ...options }`: the options are
      spread last, so every setting the caller gives wins over the preset. */
  function Preset(kind: Kind, message: string, options: Options): (r: Request)
    ensures r.kind == kind && r.message == message
    ensures r.position == Some(options.position.GetOr(PresetPosition(kind)))
    ensures r.timeout == Some(options.timeout.GetOr(PresetTimeout(kind)))
    ensures r.caption == options.caption && r.progress == options.progress && r.multiline == options.multiline
  {
    Request(kind, message, options.caption,
            Some(if options.position.Some? then options.position.value else PresetPosition(kind)),
            Some(if options.timeout.Some? then options.timeout.value else PresetTimeout(kind)),
            options.progress, options.multiline)
  }

  /** Without options each helper yields its preset: success at the bottom
      for 4 s, errors and warnings top right for 5 s, information top right
      for 4 s. */
  lemma PresetDefaults(message: string)
    ensures Effective(Preset(Success, message, NoOptions)) == Shown(Bottom, 4000, true, false)
    ensures Effective(Preset(Error, message, NoOptions)) == Shown(TopRight, 5000, true, false)
    ensures Effective(Preset(Warning, message, NoOptions)) == Shown(TopRight, 5000, true, false)
    ensures Effective(Preset(Info, message, NoOptions)) == Shown(TopRight, 4000, true, false)
  {
  }

  /** A caller's position and timeout are the ones the notification uses,
      whatever the kind. */
  lemma OptionsOverride(kind: Kind, message: string, options: Options)
    requires options.position.Some? && options.timeout.Some?
    ensures Effective(Preset(kind, message, options)).position == options.position.value
    ensures Effective(Preset(kind, message, options)).timeout == options.timeout.value
  {
  }

  // ---------------------------------------------------------------- one notification

  /** The settings a notification renders with. */
  datatype Shown = Shown(position: Position, timeout: int, progress: bool, multiline: bool)

  /** The component's default parameters: at the top, 5 s, with a progress
      bar, on one line. */
  function Effective(r: Request): (s: Shown)
    ensures r.position.None? ==> s.position == Top
    ensures r.timeout.None? ==> s.timeout == 5000
    ensures r.progress.None? ==> s.progress
    ensures r.multiline.None? ==> !s.multiline
    ensures r.position.Some? ==> s.position == r.position.value
    ensures r.timeout.Some? ==> s.timeout == r.timeout.value
  {
    Shown(r.position.GetOr(Top), r.timeout.GetOr(5000), r.progress.GetOr(true), r.multiline.GetOr(false))
  }

  /** The dismiss timer is set only for a positive timeout. */
  predicate AutoDismisses(s: Shown) {
    s.timeout > 0
  }

  /** The bar is drawn, and drains, only with progress on and a positive timeout. */
  predicate ShowsBar(s: Shown) {
    s.progress && s.timeout > 0
  }

  /** A drawn bar always belongs to a notification that closes by itself,
      and a timeout of 0 or less keeps the notification open with no bar. */
  lemma BarImpliesAutoDismiss(s: Shown)
    ensures ShowsBar(s) ==> AutoDismisses(s)
    ensures s.timeout <= 0 ==> !AutoDismisses(s) && !ShowsBar(s)
  {
  }

  /** How much the bar loses per 50 ms tick: `100 / (timeout / 50)`. */
  function TickStep(timeout: int): (d: real)
    requires timeout > 0
    ensures d > 0.0
  {
    100.0 / (timeout as real / 50.0)
  }

  /** `Math.max(0, prev - step)`. */
  function Drain(width: real, step: real): real {
    if width - step > 0.0 then width - step else 0.0
  }

  /** The width after `n` ticks, in closed form. */
  function WidthAfter(timeout: int, n: nat): (w: real)
    requires timeout > 0
    ensures 0.0 <= w <= 100.0
  {
    var raw := 100.0 - n as real * TickStep(timeout);
    if raw > 0.0 then raw else 0.0
  }

  /** One more tick takes the closed form from `n` to `n + 1`. */
  lemma DrainStep(timeout: int, n: nat)
    requires timeout > 0
    ensures Drain(WidthAfter(timeout, n), TickStep(timeout)) == WidthAfter(timeout, n + 1)
  {
    var d := TickStep(timeout);
    assert (n + 1) as real * d == n as real * d + d;
  }

  /** The bar is empty exactly once `n` ticks of 50 ms reach the timeout,
      and it never grows. */
  lemma EmptyWhenTimedOut(timeout: int, n: nat)
    requires timeout > 0
    ensures WidthAfter(timeout, n) == 0.0 <==> n * 50 >= timeout
    ensures WidthAfter(timeout, n + 1) <= WidthAfter(timeout, n)
  {
    WidthZeroIff(timeout, n);
    EnoughTicks(timeout, n);
    OneMoreTick(n as real, TickStep(timeout));
  }

  lemma WidthZeroIff(timeout: int, n: nat)
    requires timeout > 0
    ensures WidthAfter(timeout, n) == 0.0 <==> n as real * TickStep(timeout) >= 100.0
  {
  }

  /** `n` ticks drain 100 percent exactly when `n * 50` ms reach the timeout. */
  lemma EnoughTicks(timeout: int, n: nat)
    requires timeout > 0
    ensures n as real * TickStep(timeout) >= 100.0 <==> n * 50 >= timeout
  {
    var t, d, m := timeout as real, TickStep(timeout), n as real;
    TickStepTimesTimeout(timeout);
    Regroup(m, d, t);
    Threshold(m * d, t, m * 5000.0);
  }

  /** With `p * t == q` and `t` positive, `p` reaches 100 exactly when `q` reaches `100 * t`. */
  lemma Threshold(p: real, t: real, q: real)
    requires t > 0.0 && p * t == q
    ensures p >= 100.0 <==> q >= 100.0 * t
  {
    if p >= 100.0 {
      assert q - 100.0 * t == (p - 100.0) * t;
    } else {
      assert 100.0 * t - q == (100.0 - p) * t;
    }
  }

  lemma Regroup(a: real, b: real, c: real)
    ensures a * b * c == a * (b * c)
  {
  }

  lemma OneMoreTick(m: real, d: real)
    ensures (m + 1.0) * d == m * d + d
  {
  }

  /** `n` ticks of `100 / (timeout / 50)` add up to `n * 5000 / timeout`. */
  lemma TickStepTimesTimeout(timeout: int)
    requires timeout > 0
    ensures TickStep(timeout) * timeout as real == 5000.0
  {
    var t := timeout as real;
    assert TickStep(timeout) == 5000.0 / t by {
      assert t / 50.0 * (5000.0 / t) == 100.0;
    }
  }

  /** The bar of one notification: it starts full and loses a step on each
      tick of its interval, which runs only for a positive timeout. */
  class ProgressBar {
    const timeout: int
    var width: real
    ghost var ticks: nat

    ghost predicate Valid()
      reads this
    {
      timeout > 0 && width == WidthAfter(timeout, ticks)
    }

    constructor(timeout: int)
      requires timeout > 0
      ensures Valid() && this.timeout == timeout && width == 100.0 && ticks == 0
    {
      this.timeout := timeout;
      width := 100.0;
      ticks := 0;
    }

    /** `setProgressWidth(prev => Math.max(0, prev - 100 / (timeout / 50)))`. */
    method Tick()
      requires Valid()
      modifies this
      ensures Valid() && ticks == old(ticks) + 1
      ensures width == Drain(old(width), TickStep(timeout))
    {
      DrainStep(timeout, ticks);
      width := Drain(width, TickStep(timeout));
      ticks := ticks + 1;
    }
  }

  // ---------------------------------------------------------------- the provider

  /** `prev.filter(n => n.id !== id)`. */
  function WithoutId(notices: seq<Notice>, id: string): (r: seq<Notice>)
    ensures |r| <= |notices|
  {
    if notices == [] then []
    else (if notices[0].id != id then [notices[0]] else []) + WithoutId(notices[1..], id)
  }

  /** A notification survives dismissal exactly when it was open and has another id. */
  lemma {:induction false} WithoutIdMembers(notices: seq<Notice>, id: string)
    ensures forall n :: n in WithoutId(notices, id) <==> n in notices && n.id != id
  {
    if notices != [] {
      WithoutIdMembers(notices[1..], id);
      assert notices == [notices[0]] + notices[1..];
    }
  }

  predicate UsesId(notices: seq<Notice>, id: string) {
    exists i :: 0 <= i < |notices| && notices[i].id == id
  }

  predicate UniqueIds(notices: seq<Notice>) {
    forall i, j :: 0 <= i < j < |notices| ==> notices[i].id != notices[j].id
  }

  /** Dismissing keeps the others in order and ignores an unknown id. */
  lemma {:induction false} WithoutIdFacts(notices: seq<Notice>, id: string)
    ensures SubsequenceOf(WithoutId(notices, id), notices)
    ensures !UsesId(notices, id) ==> WithoutId(notices, id) == notices
  {
    if notices != [] {
      WithoutIdFacts(notices[1..], id);
      var rest := WithoutId(notices[1..], id);
      if !UsesId(notices, id) {
        assert !UsesId(notices[1..], id) by {
          forall i | 0 <= i < |notices[1..]| ensures notices[1..][i].id != id {
            assert notices[1..][i] == notices[i + 1];
          }
        }
      }
      if notices[0].id != id {
        assert WithoutId(notices, id) == [notices[0]] + rest;
        KeepFront(rest, notices);
      } else {
        assert WithoutId(notices, id) == rest;
        SkipFront(rest, notices);
      }
    }
  }

  /** Showing a notification and then dismissing it by the id it got
      restores the list. */
  lemma {:induction false} ShowThenDismiss(notices: seq<Notice>, n: Notice)
    requires !UsesId(notices, n.id)
    ensures WithoutId(notices + [n], n.id) == notices
  {
    if notices == [] {
      assert WithoutId([n], n.id) == [] + WithoutId([n][1..], n.id);
    } else {
      var rest := notices[1..];
      assert (notices + [n])[1..] == rest + [n];
      assert !UsesId(rest, n.id) by {
        forall i | 0 <= i < |rest| ensures rest[i].id != n.id {
          assert rest[i] == notices[i + 1];
        }
      }
      ShowThenDismiss(rest, n);
      assert notices[0].id != n.id;
      assert WithoutId(notices + [n], n.id) == [notices[0]] + WithoutId(rest + [n], n.id);
      assert [notices[0]] + rest == notices;
    }
  }

  /** Filtering keeps the ids apart. */
  lemma UniqueAfterDismiss(notices: seq<Notice>, id: string)
    requires UniqueIds(notices)
    ensures UniqueIds(WithoutId(notices, id))
  {
    WithoutIdFacts(notices, id);
    SubsequenceUnique(WithoutId(notices, id), notices);
  }

  lemma {:induction false} SubsequenceUnique(a: seq<Notice>, b: seq<Notice>)
    requires SubsequenceOf(a, b) && UniqueIds(b)
    ensures UniqueIds(a)
    decreases |b|
  {
    if a != [] && b != [] {
      assert UniqueIds(b[1..]) by {
        forall i, j | 0 <= i < j < |b[1..]| ensures b[1..][i].id != b[1..][j].id {
          assert b[1..][i] == b[i + 1] && b[1..][j] == b[j + 1];
        }
      }
      if a[0] == b[0] && SubsequenceOf(a[1..], b[1..]) {
        SubsequenceUnique(a[1..], b[1..]);
        forall j | 0 < j < |a| ensures a[0].id != a[j].id {
          SubsequenceMember(a[1..], b[1..], j - 1);
        }
      } else {
        SubsequenceUnique(a, b[1..]);
      }
    }
  }

  /** Each entry of a subsequence is an entry of the list. */
  lemma {:induction false} SubsequenceMember(a: seq<Notice>, b: seq<Notice>, k: nat)
    requires SubsequenceOf(a, b) && k < |a|
    ensures exists i :: 0 <= i < |b| && b[i] == a[k]
    decreases |b|
  {
    if a[0] == b[0] && SubsequenceOf(a[1..], b[1..]) {
      if k > 0 {
        SubsequenceMember(a[1..], b[1..], k - 1);
        var i :| 0 <= i < |b[1..]| && b[1..][i] == a[1..][k - 1];
        assert b[i + 1] == a[k];
      }
    } else {
      SubsequenceMember(a, b[1..], k);
      var i :| 0 <= i < |b[1..]| && b[1..][i] == a[k];
      assert b[i + 1] == a[k];
    }
  }

  class NotificationProvider {
    var notifications: seq<Notice>

    /** Ids are handed out fresh, so no two open notifications share one. */
    ghost predicate Valid()
      reads this
    {
      UniqueIds(notifications)
    }

    constructor()
      ensures Valid() && notifications == []
    {
      notifications := [];
    }

    /** `showNotification`: appends the request under a fresh id and
        returns the id. The random id is a parameter here. */
    method Show(request: Request, freshId: string) returns (id: string)
      requires Valid() && !UsesId(notifications, freshId)
      modifies this
      ensures Valid()
      ensures id == freshId
      ensures notifications == old(notifications) + [Notice(freshId, request)]
    {
      notifications := notifications + [Notice(freshId, request)];
      id := freshId;
    }

    /** `dismissNotification`: drops the notification with that id. */
    method Dismiss(id: string)
      requires Valid()
      modifies this
      ensures Valid()
      ensures notifications == WithoutId(old(notifications), id)
    {
      UniqueAfterDismiss(notifications, id);
      notifications := WithoutId(notifications, id);
    }

    /** `clearAll`. */
    method ClearAll()
      modifies this
      ensures Valid() && notifications == []
    {
      notifications := [];
    }
  }
}

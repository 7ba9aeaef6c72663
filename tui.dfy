/** The upload progress screen's state machine (cmd/cli/tui.go): `Init` and the
    `Update` reducer of the Bubble Tea model. Go's `int64` and (64-bit) `int`
    arithmetic wraps around, and the model writes that out. Rendering (`View`) is
    not part of the model. */
module Tui {
  import opened Common

  const Two64: int := 0x1_0000_0000_0000_0000
  const MinInt64: int := -0x8000_0000_0000_0000
  const MaxInt64: int := 0x7fff_ffff_ffff_ffff

  type Int64 = x: int | MinInt64 <= x <= MaxInt64

  /** Two's-complement wrap-around of an exact result into 64 bits. */
  function Wrap64(x: int): (r: Int64)
    ensures (r - x) % Two64 == 0
    ensures MinInt64 <= x <= MaxInt64 ==> r == x
  {
    var q := (x - MinInt64) / Two64;
    assert x - MinInt64 == q * Two64 + (x - MinInt64) % Two64;
    (x - MinInt64) % Two64 + MinInt64
  }

  lemma ModSubMultiple(a: int, q: int)
    ensures (a - q * Two64) % Two64 == a % Two64
  {
    var r := a % Two64;
    assert a == (a / Two64) * Two64 + r;
    assert a - q * Two64 == (a / Two64 - q) * Two64 + r;
  }

  /** Wrapping an intermediate sum changes nothing about the wrapped total. */
  lemma WrapAddWrap(x: int, y: int)
    ensures Wrap64(Wrap64(x) + y) == Wrap64(x + y)
  {
    var q := (x - MinInt64) / Two64;
    assert Wrap64(x) == x - q * Two64;
    ModSubMultiple(x + y - MinInt64, q);
  }

  /** Space on each side of the progress bar (`padding`). */
  const Padding: Int64 := 2
  /** Widest the progress bar gets (`maxWidth`). */
  const MaxWidth: Int64 := 80

  datatype Model = Model(
    filePath: string,
    command: string,
    fileSize: Int64,
    uploaded: Int64,
    progressWidth: Int64,
    width: Int64,
    height: Int64)

  /** The messages `Update` tells apart: a key press (by its string form), upload
      progress, a terminal resize, and anything else. */
  datatype Msg =
    | KeyMsg(key: string)
    | ProgressMsg(n: Int64)
    | WindowSizeMsg(width: Int64, height: Int64)
    | OtherMsg

  /** The only command the model issues; `None` stands for a nil `tea.Cmd`. */
  datatype Cmd = Quit

  /** `Init`: no start-up command. */
  function Init(m: Model): (cmd: Option<Cmd>)
    ensures cmd.None?
  {
    None
  }

  predicate IsQuitKey(key: string) {
    key == "ctrl+c" || key == "q"
  }

  /** The progress bar's width for a terminal `width` columns wide: the width less
      the padding on both sides and four more columns, at most `MaxWidth`, with no
      lower bound. A width within 8 of the least `int` wraps around to a large
      value, which the clamp then turns into `MaxWidth`. */
  function ProgressWidth(width: Int64): (w: Int64)
    ensures w <= MaxWidth
    ensures MinInt64 <= width - 2 * Padding - 4 <= MaxWidth ==> w == width - 2 * Padding - 4
    ensures width - 2 * Padding - 4 > MaxWidth ==> w == MaxWidth
    ensures width - 2 * Padding - 4 < MinInt64 ==> w == MaxWidth
  {
    var w := Wrap64(width - Padding * 2 - 4);
    if w > MaxWidth then MaxWidth else w
  }

  /** A narrow terminal gives a negative width: nothing clamps it at zero. */
  lemma NarrowTerminalNegativeWidth(width: Int64)
    requires 0 <= width < 8
    ensures ProgressWidth(width) < 0
  {
  }

  /** `Update`: quit keys ask to quit, progress adds to the uploaded count (modulo
      2^64), a resize records the terminal size and the bar width; nothing else
      changes the model or issues a command. */
  function Update(m: Model, msg: Msg): (r: (Model, Option<Cmd>))
    ensures msg.KeyMsg? ==> r.0 == m && (r.1 == Some(Quit) <==> IsQuitKey(msg.key))
    ensures !msg.KeyMsg? ==> r.1 == None
    ensures msg.ProgressMsg? ==>
      r.0.(uploaded := m.uploaded) == m && (r.0.uploaded - (m.uploaded + msg.n)) % Two64 == 0
    ensures msg.WindowSizeMsg? ==>
      r.0.(width := m.width, height := m.height, progressWidth := m.progressWidth) == m
      && r.0.width == msg.width && r.0.height == msg.height && r.0.progressWidth == ProgressWidth(msg.width)
    ensures msg.OtherMsg? ==> r.0 == m
  {
    match msg
    case KeyMsg(key) => if IsQuitKey(key) then (m, Some(Quit)) else (m, None)
    case ProgressMsg(n) => (m.(uploaded := Wrap64(m.uploaded + n)), None)
    case WindowSizeMsg(width, height) =>
      (m.(height := height, width := width, progressWidth := ProgressWidth(width)), None)
    case OtherMsg => (m, None)
  }

  /** The model after a sequence of messages, each handled by `Update` in turn. */
  function Run(m: Model, msgs: seq<Msg>): (r: Model)
    decreases |msgs|
  {
    if msgs == [] then m else Run(Update(m, msgs[0]).0, msgs[1..])
  }

  /** The sum of the progress reported in a sequence of messages. */
  function Progress(msgs: seq<Msg>): int {
    if msgs == [] then 0
    else (if msgs[0].ProgressMsg? then msgs[0].n else 0) + Progress(msgs[1..])
  }

  /** The uploaded count is the starting count plus all reported progress, wrapped
      into 64 bits. */
  lemma {:induction false} RunUploaded(m: Model, msgs: seq<Msg>)
    ensures Run(m, msgs).uploaded == Wrap64(m.uploaded + Progress(msgs))
    decreases |msgs|
  {
    if msgs != [] {
      var next := Update(m, msgs[0]).0;
      var d := if msgs[0].ProgressMsg? then msgs[0].n as int else 0;
      var rest := Progress(msgs[1..]);
      RunUploaded(next, msgs[1..]);
      UploadedAfter(m, msgs[0]);
      assert Run(m, msgs) == Run(next, msgs[1..]);
      assert Progress(msgs) == d + rest;
      WrapStep(m.uploaded, d, rest, next.uploaded);
    }
  }

  /** Adding `d` and then `rest`, wrapping after each, wraps the whole sum. */
  lemma WrapStep(u: int, d: int, rest: int, next: int)
    requires next == Wrap64(u + d)
    ensures Wrap64(next + rest) == Wrap64(u + (d + rest))
  {
    WrapAddWrap(u + d, rest);
    assert u + d + rest == u + (d + rest);
  }

  /** One message adds its progress, if any, to the count, modulo 2^64. */
  lemma UploadedAfter(m: Model, msg: Msg)
    ensures Update(m, msg).0.uploaded == Wrap64(m.uploaded + if msg.ProgressMsg? then msg.n as int else 0)
  {
  }

  /** As long as the total stays within `int64`, the count is the exact sum. */
  lemma RunUploadedExact(m: Model, msgs: seq<Msg>)
    requires MinInt64 <= m.uploaded + Progress(msgs) <= MaxInt64
    ensures Run(m, msgs).uploaded == m.uploaded + Progress(msgs)
  {
    RunUploaded(m, msgs);
  }

  /** Messages never touch the file, the command or the file size. */
  lemma {:induction false} RunKeepsUpload(m: Model, msgs: seq<Msg>)
    ensures var r := Run(m, msgs);
      r.filePath == m.filePath && r.command == m.command && r.fileSize == m.fileSize
    decreases |msgs|
  {
    if msgs != [] {
      RunKeepsUpload(Update(m, msgs[0]).0, msgs[1..]);
    }
  }

  /** Handling the same resize twice is the same as handling it once. */
  lemma ResizeIdempotent(m: Model, width: Int64, height: Int64)
    ensures var once := Update(m, WindowSizeMsg(width, height)).0;
      Update(once, WindowSizeMsg(width, height)).0 == once
  {
  }

  /** Progress and resizes do not interfere: handled in either order, they give the
      same model. */
  lemma ProgressCommutesWithResize(m: Model, n: Int64, width: Int64, height: Int64)
    ensures Run(m, [ProgressMsg(n), WindowSizeMsg(width, height)])
         == Run(m, [WindowSizeMsg(width, height), ProgressMsg(n)])
  {
  }
}

/** The tab strip: labels cut to fit, and the rectangles that answer a click. Widths are columns;
    a string's width is the sum of its characters'. */
module TabLayout {
  import opened Wrappers

  type Widths = char -> nat

  const ELLIPSIS := '\U{2026}'
  const SEP := " \U{2502} "
  const SECRETS_LABEL := "Secrets"
  const SETTINGS_LABEL := "Settings"
  const NO_TITLE := "(pinned)"
  const PIN_LABEL_FLOOR := 8
  const U16_MAX := 0xFFFF

  function Width(s: string, w: Widths): nat
    decreases |s|
  {
    if s == "" then 0 else Width(s[..|s| - 1], w) + w(s[|s| - 1])
  }

  lemma {:induction false} WidthConcat(a: string, b: string, w: Widths)
    ensures Width(a + b, w) == Width(a, w) + Width(b, w)
    decreases |b|
  {
    if b == "" {
      assert a + b == a;
    } else {
      WidthConcat(a, b[..|b| - 1], w);
      assert (a + b)[..|a + b| - 1] == a + b[..|b| - 1];
    }
  }

  function PrefixWidth(s: string, k: nat, w: Widths): nat
    requires k <= |s|
  {
    Width(s[..k], w)
  }

  function SuffixWidth(s: string, k: nat, w: Widths): nat
    requires k <= |s|
  {
    Width(s[|s| - k..], w)
  }

  lemma WidthSplit(s: string, k: nat, w: Widths)
    requires k <= |s|
    ensures Width(s, w) == PrefixWidth(s, k, w) + SuffixWidth(s, |s| - k, w)
  {
    WidthConcat(s[..k], s[k..], w);
    assert s == s[..k] + s[k..];
  }

  lemma PrefixStep(s: string, k: nat, w: Widths)
    requires k < |s|
    ensures PrefixWidth(s, k + 1, w) == PrefixWidth(s, k, w) + w(s[k])
  {
    assert s[..k + 1][..k] == s[..k];
  }

  lemma SuffixStep(s: string, k: nat, w: Widths)
    requires k < |s|
    ensures SuffixWidth(s, k + 1, w) == SuffixWidth(s, k, w) + w(s[|s| - 1 - k])
  {
    WidthSplit(s, |s| - k, w);
    WidthSplit(s, |s| - (k + 1), w);
    PrefixStep(s, |s| - (k + 1), w);
  }

  lemma {:induction false} WidthMonotone(s: string, i: nat, j: nat, w: Widths)
    requires i <= j <= |s|
    ensures PrefixWidth(s, i, w) <= PrefixWidth(s, j, w)
    ensures SuffixWidth(s, i, w) <= SuffixWidth(s, j, w)
    decreases j
  {
    if i < j {
      WidthMonotone(s, i, j - 1, w);
      PrefixStep(s, j - 1, w);
      SuffixStep(s, j - 1, w);
    }
  }

  /* ------------------------------ Ellipsis ------------------------------ */

  // `k` characters is the most that `budget` columns hold, from the front.
  predicate LongestPrefix(s: string, budget: nat, w: Widths, k: nat) {
    && k <= |s| && PrefixWidth(s, k, w) <= budget
    && forall m: nat :: k < m <= |s| ==> PrefixWidth(s, m, w) > budget
  }

  predicate LongestSuffix(s: string, budget: nat, w: Widths, k: nat) {
    && k <= |s| && SuffixWidth(s, k, w) <= budget
    && forall m: nat :: k < m <= |s| ==> SuffixWidth(s, m, w) > budget
  }

  // One character more is too many, so any number more is.
  lemma PrefixStops(s: string, budget: nat, w: Widths, k: nat)
    requires k < |s| && PrefixWidth(s, k, w) <= budget < PrefixWidth(s, k + 1, w)
    ensures LongestPrefix(s, budget, w, k)
  {
    forall m: nat | k < m <= |s|
      ensures PrefixWidth(s, m, w) > budget
    {
      WidthMonotone(s, k + 1, m, w);
    }
  }

  lemma SuffixStops(s: string, budget: nat, w: Widths, k: nat)
    requires k < |s| && SuffixWidth(s, k, w) <= budget < SuffixWidth(s, k + 1, w)
    ensures LongestSuffix(s, budget, w, k)
  {
    forall m: nat | k < m <= |s|
      ensures SuffixWidth(s, m, w) > budget
    {
      WidthMonotone(s, k + 1, m, w);
    }
  }

  /** The longest prefix that fits. */
  method TakeWidthPrefix(s: string, budget: nat, w: Widths) returns (out: string)
    ensures |out| <= |s| && out == s[..|out|] && LongestPrefix(s, budget, w, |out|)
  {
    out := "";
    var used := 0;
    for i := 0 to |s|
      invariant out == s[..i] && used == PrefixWidth(s, i, w) <= budget
    {
      var c := s[i];
      PrefixStep(s, i, w);
      if used + w(c) > budget {
        PrefixStops(s, budget, w, i);
        return;
      }
      out := out + [c];
      used := used + w(c);
    }
  }

  /** The longest suffix that fits. */
  method TakeWidthSuffix(s: string, budget: nat, w: Widths) returns (out: string)
    ensures |out| <= |s| && out == s[|s| - |out|..] && LongestSuffix(s, budget, w, |out|)
  {
    out := "";
    var used := 0;
    for i := 0 to |s|
      invariant out == s[|s| - i..] && used == SuffixWidth(s, i, w) <= budget
    {
      var c := s[|s| - 1 - i];
      SuffixStep(s, i, w);
      if used + w(c) > budget {
        SuffixStops(s, budget, w, i);
        return;
      }
      out := [c] + out;
      used := used + w(c);
    }
  }

  // A head and a tail of `s` around an ellipsis, each as long as its budget allows.
  ghost predicate Cut(s: string, headBudget: nat, tailBudget: nat, w: Widths, r: string, h: nat, t: nat) {
    && h + t < |s| && r == s[..h] + [ELLIPSIS] + s[|s| - t..]
    && LongestPrefix(s, headBudget, w, h) && LongestSuffix(s, tailBudget, w, t)
  }

  ghost predicate Ellipsised(s: string, maxWidth: nat, w: Widths, r: string)
    requires maxWidth > 0
  {
    var headBudget, tailBudget := maxWidth / 2, (maxWidth - 1) / 2;
    exists h: nat, t: nat :: Cut(s, headBudget, tailBudget, w, r, h, t)
  }

  /** The label fits whenever there is room for the ellipsis at all, and its head and tail are
      pieces of the title that do not overlap. */
  method MiddleEllipsis(s: string, maxWidth: nat, w: Widths) returns (r: string)
    requires w(ELLIPSIS) == 1
    ensures Width(s, w) <= maxWidth ==> r == s
    ensures Width(s, w) > maxWidth && maxWidth <= 1 ==> r == [ELLIPSIS]
    ensures Width(s, w) > maxWidth > 1 ==> Ellipsised(s, maxWidth, w, r)
    ensures Width(r, w) <= maxWidth <==> maxWidth >= 1 || Width(s, w) == 0
  {
    if Width(s, w) <= maxWidth {
      return s;
    }
    EllipsisWidth(w);
    if maxWidth <= 1 {
      return [ELLIPSIS];
    }
    var budget := maxWidth - 1;
    var headBudget := (budget + 1) / 2;
    var tailBudget := budget - headBudget;
    var head := TakeWidthPrefix(s, headBudget, w);
    var tail := TakeWidthSuffix(s, tailBudget, w);
    r := head + [ELLIPSIS] + tail;
    NoOverlap(s, |head|, |tail|, budget, w);
    WidthConcat(head, [ELLIPSIS], w);
    WidthConcat(head + [ELLIPSIS], tail, w);
    assert Cut(s, maxWidth / 2, (maxWidth - 1) / 2, w, r, |head|, |tail|);
  }

  lemma EllipsisWidth(w: Widths)
    requires w(ELLIPSIS) == 1
    ensures Width([ELLIPSIS], w) == 1
  {
    assert [ELLIPSIS][..0] == "";
  }

  lemma NoOverlap(s: string, h: nat, t: nat, budget: nat, w: Widths)
    requires h <= |s| && t <= |s| && PrefixWidth(s, h, w) + SuffixWidth(s, t, w) <= budget < Width(s, w)
    ensures h + t < |s|
  {
    var k := |s| - t;
    assert PrefixWidth(s, k, w) + SuffixWidth(s, t, w) == Width(s, w) by {
      WidthSplit(s, k, w);
      assert |s| - k == t;
    }
    if k <= h {
      WidthMonotone(s, k, h, w);
    }
  }

  /* ------------------------------ Labels ------------------------------ */

  function Decimal(n: nat): string {
    if n < 10 then [(n as char) + '0'] else Decimal(n / 10) + [((n % 10) as char) + '0']
  }

  function Join(labels: seq<string>, sep: string): string
    decreases |labels|
  {
    if labels == [] then ""
    else if |labels| == 1 then labels[0]
    else Join(labels[..|labels| - 1], sep) + sep + labels[|labels| - 1]
  }

  function ContentWidth(labels: seq<string>, w: Widths): nat
    decreases |labels|
  {
    if labels == [] then 0 else ContentWidth(labels[..|labels| - 1], w) + Width(labels[|labels| - 1], w)
  }

  function WidthOf(labels: seq<string>, w: Widths): nat {
    ContentWidth(labels, w) + (if labels == [] then 0 else |labels| - 1) * Width(SEP, w)
  }

  /** The width the layout decides by is the width of the line it would draw. */
  lemma {:induction false} WidthOfIsLineWidth(labels: seq<string>, w: Widths)
    ensures WidthOf(labels, w) == Width(Join(labels, SEP), w)
    decreases |labels|
  {
    if labels != [] {
      var n := |labels| - 1;
      var all, front := Join(labels, SEP), Join(labels[..n], SEP);
      WidthOfIsLineWidth(labels[..n], w);
      if n == 0 {
        assert labels[..0] == [];
      } else {
        WidthConcat(front, SEP, w);
        WidthConcat(front + SEP, labels[n], w);
        OneMoreSeparator(n, Width(SEP, w));
      }
    }
  }

  lemma OneMoreSeparator(n: int, width: int)
    ensures n * width == (n - 1) * width + width
  {
  }

  // One tab's label: its ordinal, its text, and brackets if it is active.
  function Decorated(i: nat, text: string, active: nat): string {
    var numbered := Decimal(i + 1) + ":" + text;
    if i == active then "[" + numbered + "]" else numbered
  }

  function Ordinal(i: nat, active: nat): string {
    if i == active then "[" + Decimal(i + 1) + "]" else Decimal(i + 1)
  }

  // What a tab says before it is decorated; `pins` are the pinned labels, as shown.
  function TextAt(pins: seq<string>, i: nat): string {
    if i == 0 then SECRETS_LABEL else if i <= |pins| then pins[i - 1] else SETTINGS_LABEL
  }

  function Labels(pins: seq<string>, active: nat): (r: seq<string>)
    ensures |r| == |pins| + 2
  {
    seq(|pins| + 2, i requires 0 <= i < |pins| + 2 => Decorated(i, TextAt(pins, i), active))
  }

  function Ordinals(count: nat, active: nat): (r: seq<string>)
    ensures |r| == count
  {
    seq(count, i requires 0 <= i < count => Ordinal(i, active))
  }

  // A pin without a title says so.
  function TitleAt(titles: seq<string>, i: nat): string {
    if i < |titles| then titles[i] else NO_TITLE
  }

  datatype Strip = Strip(labels: seq<string>, separator: string)

  // Each pinned label is its title, or an ellipsised title of at most eight columns.
  ghost predicate Shrunk(titles: seq<string>, pins: seq<string>, w: Widths) {
    forall i :: 0 <= i < |pins| ==>
      && Width(pins[i], w) <= PIN_LABEL_FLOOR
      && (pins[i] == TitleAt(titles, i) || Ellipsised(TitleAt(titles, i), PIN_LABEL_FLOOR, w, pins[i]))
  }

  function Titles(titles: seq<string>, pinCount: nat): (r: seq<string>)
    ensures |r| == pinCount && forall i :: 0 <= i < pinCount ==> r[i] == TitleAt(titles, i)
  {
    seq(pinCount, i requires 0 <= i < pinCount => TitleAt(titles, i))
  }

  method ShrinkPins(titles: seq<string>, pinCount: nat, w: Widths) returns (pins: seq<string>)
    requires w(ELLIPSIS) == 1
    ensures |pins| == pinCount && Shrunk(titles, pins, w)
  {
    pins := [];
    for i := 0 to pinCount
      invariant |pins| == i && Shrunk(titles, pins, w)
    {
      var pin := MiddleEllipsis(TitleAt(titles, i), PIN_LABEL_FLOOR, w);
      pins := pins + [pin];
    }
  }

  // The line with these pinned labels, as wide as it would be drawn.
  function LineWidth(pins: seq<string>, active: nat, w: Widths): nat {
    Width(Join(Labels(pins, active), SEP), w)
  }

  // Printable ASCII is one column a character.
  ghost predicate PlainWidths(w: Widths) {
    forall c :: ' ' <= c <= '~' ==> w(c) == 1
  }

  predicate Plain(s: string) {
    forall i :: 0 <= i < |s| ==> ' ' <= s[i] <= '~'
  }

  lemma {:induction false} WidthIsLength(s: string, w: Widths)
    requires PlainWidths(w) && Plain(s)
    ensures Width(s, w) == |s|
    decreases |s|
  {
    if s != "" {
      WidthIsLength(s[..|s| - 1], w);
    }
  }

  lemma {:induction false} DecimalIsPlain(n: nat)
    ensures Plain(Decimal(n))
  {
    if 10 <= n {
      DecimalIsPlain(n / 10);
    }
  }

  // The digits of 1, 2, ..., n.
  function Digits(n: nat): nat {
    if n == 0 then 0 else Digits(n - 1) + |Decimal(n)|
  }

  lemma OrdinalWidth(i: nat, active: nat, w: Widths)
    requires PlainWidths(w)
    ensures Width(Ordinal(i, active), w) == |Decimal(i + 1)| + if i == active then 2 else 0
  {
    DecimalIsPlain(i + 1);
    WidthIsLength(Ordinal(i, active), w);
  }

  lemma OneMoreWidth(labels: seq<string>, k: nat, w: Widths)
    requires PlainWidths(w) && 0 < k < |labels|
    ensures Width(Join(labels[..k + 1], " "), w) == Width(Join(labels[..k], " "), w) + 1 + Width(labels[k], w)
  {
    var front := Join(labels[..k], " ");
    assert labels[..k + 1][..k] == labels[..k];
    WidthIsLength(" ", w);
    WidthConcat(front, " ", w);
    WidthConcat(front + " ", labels[k], w);
  }

  lemma {:induction false} OrdinalsPrefixWidth(labels: seq<string>, active: nat, k: nat, w: Widths)
    requires PlainWidths(w) && labels == Ordinals(|labels|, active) && 0 < k <= |labels|
    ensures Width(Join(labels[..k], " "), w) == Digits(k) + (k - 1) + if active < k then 2 else 0
  {
    OrdinalWidth(k - 1, active, w);
    assert labels[k - 1] == Ordinal(k - 1, active);
    if k == 1 {
      assert Join(labels[..1], " ") == labels[0];
      assert Digits(0) == 0;
    } else {
      OrdinalsPrefixWidth(labels, active, k - 1, w);
      OneMoreWidth(labels, k - 1, w);
    }
  }

  /** The width of the ordinals, for every bar. With up to nine tabs, and there are never more than
      seven, it is 2 * n + 1. */
  lemma OrdinalsWidth(n: nat, active: nat, w: Widths)
    requires PlainWidths(w) && active < n
    ensures Width(Join(Ordinals(n, active), " "), w) == Digits(n) + n + 1
    ensures n <= 9 ==> Width(Join(Ordinals(n, active), " "), w) == 2 * n + 1
  {
    var labels := Ordinals(n, active);
    OrdinalsPrefixWidth(labels, active, n, w);
    assert labels[..n] == labels;
    if n <= 9 {
      SingleDigits(n);
    }
  }

  lemma {:induction false} SingleDigits(n: nat)
    requires n <= 9
    ensures Digits(n) == n
  {
    if 0 < n {
      SingleDigits(n - 1);
    }
  }

  lemma OrdinalsFitExactly(n: nat, active: nat, avail: nat, w: Widths)
    ensures PlainWidths(w) && active < n <= 9 ==>
              (Width(Join(Ordinals(n, active), " "), w) <= avail <==> 2 * n + 1 <= avail)
  {
    if PlainWidths(w) && active < n <= 9 {
      OrdinalsWidth(n, active, w);
    }
  }

  // The strip a full line gives way to: shrunk pins if they fit, else bare ordinals.
  ghost predicate Overflowed(strip: Strip, titles: seq<string>, pins: seq<string>, active: nat, avail: nat, w: Widths) {
    && Shrunk(titles, pins, w)
    && if LineWidth(pins, active, w) <= avail then strip == Strip(Labels(pins, active), SEP)
       else strip == Strip(Ordinals(|pins| + 2, active), " ")
  }

  /** Full titles if the line fits; else shrunk pins if that fits; else bare ordinals. So a line with
      labels always fits, every tab keeps its place and number, the anchors never shrink, and a line
      of ordinals fits exactly when there are two columns a tab and one more. */
  method LayoutParts(pinCount: nat, active: nat, titles: seq<string>, avail: nat, w: Widths) returns (strip: Strip)
    requires w(ELLIPSIS) == 1
    ensures |strip.labels| == pinCount + 2
    ensures strip.separator == SEP ==> Width(Join(strip.labels, SEP), w) <= avail
    ensures if LineWidth(Titles(titles, pinCount), active, w) <= avail
            then strip == Strip(Labels(Titles(titles, pinCount), active), SEP)
            else exists pins :: |pins| == pinCount && Overflowed(strip, titles, pins, active, avail, w)
    ensures strip.separator != SEP && PlainWidths(w) && active < pinCount + 2 <= 9 ==>
              (Width(Join(strip.labels, strip.separator), w) <= avail <==> 2 * (pinCount + 2) + 1 <= avail)
  {
    var full := Titles(titles, pinCount);
    WidthOfIsLineWidth(Labels(full, active), w);
    if WidthOf(Labels(full, active), w) <= avail {
      return Strip(Labels(full, active), SEP);
    }
    var shrunk := ShrinkPins(titles, pinCount, w);
    WidthOfIsLineWidth(Labels(shrunk, active), w);
    if WidthOf(Labels(shrunk, active), w) <= avail {
      strip := Strip(Labels(shrunk, active), SEP);
    } else {
      strip := Strip(Ordinals(pinCount + 2, active), " ");
      OrdinalsFitExactly(pinCount + 2, active, avail, w);
    }
    assert Overflowed(strip, titles, shrunk, active, avail, w);
  }

  /** Ordinals are the last resort, and may still be too wide: two tabs need five columns, and get
      ordinals in any fewer. */
  lemma OrdinalsCanOverflow(w: Widths, avail: nat)
    requires PlainWidths(w) && avail < 5
    ensures Width(Join(Ordinals(2, 0), " "), w) == 5 > avail
  {
    OrdinalsWidth(2, 0, w);
  }

  /* ------------------------------ Hit regions ------------------------------ */

  datatype Rect = Rect(x: nat, y: nat, width: nat, height: nat)

  // The rectangle of a tab's label, and the tab's index.
  datatype Region = Region(rect: Rect, index: nat)

  // Terminal coordinates are 16 bits wide.
  predicate IsArea(r: Rect) {
    r.x <= U16_MAX && r.y <= U16_MAX && r.width <= U16_MAX && r.height <= U16_MAX
  }

  function SaturatingAdd(a: nat, b: nat): nat {
    if a + b <= U16_MAX then a + b else U16_MAX
  }

  function SaturatingSub(a: nat, b: nat): nat {
    if b <= a then a - b else 0
  }

  function Right(r: Rect): nat {
    SaturatingAdd(r.x, r.width)
  }

  function Clipped(n: nat): nat {
    if n <= U16_MAX then n else U16_MAX
  }

  // Where the labels before `k` end on an unbounded line, and where label `k` starts.
  function EndBefore(widths: seq<nat>, separator: nat, k: nat): nat
    requires k <= |widths|
  {
    if k == 0 then 0 else StartOf(widths, separator, k - 1) + widths[k - 1]
  }

  function StartOf(widths: seq<nat>, separator: nat, k: nat): nat
    requires k <= |widths|
  {
    if k == 0 then 0 else StartOf(widths, separator, k - 1) + widths[k - 1] + separator
  }

  // Saturating from one label to the next keeps step with the unbounded line.
  lemma LabelPlace(x: nat, widths: seq<nat>, separator: nat, k: nat)
    requires k < |widths| && separator <= U16_MAX
    ensures var end, start := Clipped(x + EndBefore(widths, separator, k)), Clipped(x + StartOf(widths, separator, k));
            start == (if 0 < k then SaturatingAdd(end, separator) else end)
            && SaturatingAdd(start, Clipped(widths[k])) == Clipped(x + EndBefore(widths, separator, k + 1))
  {
  }

  // The line as it is drawn: label, separator, label, ... From label `k` on, whose text covers
  // a column.
  function Covering(widths: seq<nat>, separator: nat, k: nat, column: int): Option<nat>
    requires k <= |widths|
    decreases |widths| - k
  {
    if k == |widths| || column < 0 then None
    else if column < widths[k] then Some(k)
    else Covering(widths, separator, k + 1, column - widths[k] - separator)
  }

  lemma {:induction false} StartsGrow(widths: seq<nat>, separator: nat, i: nat, j: nat)
    requires i < j <= |widths|
    ensures StartOf(widths, separator, i) + widths[i] <= StartOf(widths, separator, j)
    decreases j
  {
    if i + 1 < j {
      StartsGrow(widths, separator, i, j - 1);
    }
  }

  lemma {:induction false} CoveringFrom(widths: seq<nat>, separator: nat, j: nat, column: int, k: nat)
    requires j <= |widths|
    ensures Covering(widths, separator, j, column - StartOf(widths, separator, j)) == Some(k)
            <==> j <= k < |widths| && StartOf(widths, separator, k) <= column < StartOf(widths, separator, k) + widths[k]
    decreases |widths| - j
  {
    if j < |widths| {
      if j < k < |widths| {
        StartsGrow(widths, separator, j, k);
      }
      CoveringFrom(widths, separator, j + 1, column, k);
    }
  }

  predicate Holds(r: Rect, column: int, row: int) {
    r.x <= column < r.x + r.width && r.y <= row < r.y + r.height
  }

  function WidthsOf(labels: seq<string>, w: Widths): (r: seq<nat>)
    ensures |r| == |labels| && forall k :: 0 <= k < |r| ==> r[k] == Width(labels[k], w)
  {
    seq(|labels|, i requires 0 <= i < |labels| => Width(labels[i], w))
  }

  // No rectangle reaches beyond the last column and row that 16 bits can name.
  function NewRect(x: nat, y: nat, width: nat, height: nat): Rect {
    Rect(x, y, SaturatingSub(SaturatingAdd(x, width), x), SaturatingSub(SaturatingAdd(y, height), y))
  }

  // A label's rectangle, cut off at the right edge of the area.
  function RegionFrom(area: Rect, x: nat, width: nat): Rect {
    var room := SaturatingSub(Right(area), x);
    NewRect(x, area.y, if width < room then width else room, 1)
  }

  // The rectangle of a label that starts at `start` on the unbounded line, as 16 bits give it.
  predicate RegionOf(r: Rect, area: Rect, start: nat, width: nat) {
    r == RegionFrom(area, Clipped(area.x + start), Clipped(width))
  }

  lemma RegionIsClippedLabel(r: Rect, area: Rect, start: nat, width: nat, column: int, row: int)
    requires IsArea(area) && RegionOf(r, area, start, width)
    ensures Holds(r, column, row)
            <==> row == area.y < U16_MAX && area.x + start <= column < area.x + start + width && column < Right(area)
  {
  }

  /** A click on the tab row hits tab `k` exactly when the drawn line, clipped to its area, shows
      label `k` in that column: so the regions are disjoint and in order, and separators and blanks
      hit nothing. However wide the line, nothing wraps; a row that is the last 16 bits can name has
      regions of no height. */
  method HitRegions(strip: Strip, area: Rect, w: Widths) returns (regions: seq<Region>)
    requires IsArea(area)
    ensures |regions| == |strip.labels| && forall k :: 0 <= k < |regions| ==> regions[k].index == k
    ensures forall k: nat :: k < |regions| ==>
              Hits(regions[k].rect, area, WidthsOf(strip.labels, w), Clipped(Width(strip.separator, w)), k)
  {
    regions := RegionsOf(WidthsOf(strip.labels, w), Clipped(Width(strip.separator, w)), area);
  }

  method RegionsOf(widths: seq<nat>, separator: nat, area: Rect) returns (regions: seq<Region>)
    requires IsArea(area) && separator <= U16_MAX
    ensures |regions| == |widths| && forall k :: 0 <= k < |regions| ==> regions[k].index == k
    ensures forall k: nat :: k < |regions| ==> Hits(regions[k].rect, area, widths, separator, k)
  {
    var x := area.x;
    regions := [];
    for k := 0 to |widths|
      invariant |regions| == k && x == Clipped(area.x + EndBefore(widths, separator, k))
      invariant RegionsSoFar(regions, area, widths, separator)
    {
      LabelPlace(area.x, widths, separator, k);
      if 0 < k {
        x := SaturatingAdd(x, separator);
      }
      var width := Clipped(widths[k]);
      OneMoreRegion(regions, area, widths, separator, RegionFrom(area, x, width));
      regions := regions + [Region(RegionFrom(area, x, width), k)];
      x := SaturatingAdd(x, width);
    }
    HitsAreCovered(regions, area, widths, separator);
  }

  ghost predicate RegionsSoFar(regions: seq<Region>, area: Rect, widths: seq<nat>, separator: nat)
    decreases |regions|
  {
    regions != [] ==>
      var k := |regions| - 1;
      && k < |widths| && regions[k].index == k
      && RegionOf(regions[k].rect, area, StartOf(widths, separator, k), widths[k])
      && RegionsSoFar(regions[..k], area, widths, separator)
  }

  lemma OneMoreRegion(regions: seq<Region>, area: Rect, widths: seq<nat>, separator: nat, r: Rect)
    requires RegionsSoFar(regions, area, widths, separator) && |regions| < |widths|
    requires RegionOf(r, area, StartOf(widths, separator, |regions|), widths[|regions|])
    ensures RegionsSoFar(regions + [Region(r, |regions|)], area, widths, separator)
  {
    assert (regions + [Region(r, |regions|)])[..|regions|] == regions;
  }

  lemma {:induction false} RegionAt(regions: seq<Region>, area: Rect, widths: seq<nat>, separator: nat, k: nat)
    requires RegionsSoFar(regions, area, widths, separator) && k < |regions|
    ensures k < |widths| && regions[k].index == k
    ensures RegionOf(regions[k].rect, area, StartOf(widths, separator, k), widths[k])
    decreases |regions|
  {
    if k < |regions| - 1 {
      RegionAt(regions[..|regions| - 1], area, widths, separator, k);
    }
  }

  // A click in region `k` is a click on label `k`, as far as the area shows it.
  ghost predicate Hits(r: Rect, area: Rect, widths: seq<nat>, separator: nat, k: nat) {
    forall column, row ::
      Holds(r, column, row)
      <==> row == area.y < U16_MAX && column < Right(area) && Covering(widths, separator, 0, column - area.x) == Some(k)
  }

  lemma HitsAreCovered(regions: seq<Region>, area: Rect, widths: seq<nat>, separator: nat)
    requires IsArea(area) && RegionsSoFar(regions, area, widths, separator)
    ensures forall k: nat :: k < |regions| ==> regions[k].index == k && Hits(regions[k].rect, area, widths, separator, k)
  {
    forall k: nat | k < |regions|
      ensures regions[k].index == k && Hits(regions[k].rect, area, widths, separator, k)
    {
      RegionAt(regions, area, widths, separator, k);
      RegionHits(regions[k].rect, area, widths, separator, k);
    }
  }

  lemma RegionHits(r: Rect, area: Rect, widths: seq<nat>, separator: nat, k: nat)
    requires IsArea(area) && k < |widths| && RegionOf(r, area, StartOf(widths, separator, k), widths[k])
    ensures Hits(r, area, widths, separator, k)
  {
    forall column, row
      ensures Holds(r, column, row)
              <==> row == area.y < U16_MAX && column < Right(area)
                   && Covering(widths, separator, 0, column - area.x) == Some(k)
    {
      RegionIsClippedLabel(r, area, StartOf(widths, separator, k), widths[k], column, row);
      CoveringFrom(widths, separator, 0, column - area.x, k);
    }
  }
}

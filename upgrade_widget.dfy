/**
 * The tab-list widget that shows ongoing profile and account upgrades,
 * parsed from the tab-list footer text. Styling (colours, the sign icon,
 * layout by `pack`) is not modelled: each component is its text.
 */
module UpgradeWidget {
  import opened Wrappers
  import opened JavaStrings

  const NO_DATA := "No data"
  const NO_UPGRADES := "Currently no upgrades..."
  const UPGRADES := "Upgrades"
  const NEWLINE := "\n"
  /** A line whose trimmed text is shorter than this (the styled blank line) ends the list. */
  const MIN_LINE_LENGTH := 3

  /** A footer line that is shown as an upgrade: its trimmed `length()`, in UTF-16 code units, is at least 3. */
  predicate IsUpgradeLine(line: string) {
    Utf16Length(Trim(line)) >= MIN_LINE_LENGTH
  }

  /**
   * A line of basic-plane characters is an upgrade line when it has at least
   * 3 characters after trimming; a character outside that plane counts twice,
   * so "a" followed by an emoji already is one.
   */
  lemma UpgradeLineCountsCodeUnits(line: string)
    ensures Utf16Length(Trim(line)) == |Trim(line)| ==> (IsUpgradeLine(line) <==> |Trim(line)| >= 3)
    ensures IsUpgradeLine("a\U{1F600}")
  {
    var e := "a\U{1F600}";
    assert LeadingTrimmable(e) == 0;
    assert TrailingTrimmable(e) == 0 by { assert TrailingTrimmable(e[..1]) == 0; }
    assert Trim(e) == e;
    assert Utf16Length(e) == 3 by { assert e[..1] == "a"; }
  }

  /** The longest prefix of `ls` made of upgrade lines. */
  function LeadingUpgradeLines(ls: seq<string>): seq<string> {
    if ls == [] || !IsUpgradeLine(ls[0]) then [] else [ls[0]] + LeadingUpgradeLines(ls[1..])
  }

  /** What the loop emits: line 0 is skipped, then lines up to the first short one. */
  function UpgradeLines(lines: seq<string>): seq<string> {
    if |lines| <= 1 then [] else LeadingUpgradeLines(lines[1..])
  }

  /**
   * `out` is the contiguous run `lines[1..1 + |out|]`, unmodified, of upgrade
   * lines, ended by a short line or by the end of `lines`.
   */
  predicate IsUpgradeRun(lines: seq<string>, out: seq<string>) {
    if lines == [] then out == []
    else
      && 1 + |out| <= |lines|
      && out == lines[1..1 + |out|]
      && (forall j :: 0 <= j < |out| ==> IsUpgradeLine(out[j]))
      && (1 + |out| == |lines| || !IsUpgradeLine(lines[1 + |out|]))
  }

  /** `out` is the longest prefix of `ls` made of upgrade lines, stated without recursion. */
  predicate IsLeadingRun(ls: seq<string>, out: seq<string>) {
    && |out| <= |ls|
    && out == ls[..|out|]
    && (forall j :: 0 <= j < |out| ==> IsUpgradeLine(out[j]))
    && (|out| == |ls| || !IsUpgradeLine(ls[|out|]))
  }

  lemma {:induction false} LeadingUpgradeLinesIsRun(ls: seq<string>)
    ensures IsLeadingRun(ls, LeadingUpgradeLines(ls))
  {
    if ls != [] && IsUpgradeLine(ls[0]) {
      LeadingUpgradeLinesIsRun(ls[1..]);
      var r := LeadingUpgradeLines(ls[1..]);
      assert LeadingUpgradeLines(ls) == [ls[0]] + r;
      assert ls == [ls[0]] + ls[1..];
    }
  }

  lemma {:induction false} LeadingRunUnique(ls: seq<string>, out: seq<string>)
    requires IsLeadingRun(ls, out)
    ensures out == LeadingUpgradeLines(ls)
  {
    if out != [] {
      assert out[0] == ls[0] && IsUpgradeLine(ls[0]);
      assert IsLeadingRun(ls[1..], out[1..]) by {
        assert out[1..] == ls[1..][..|out| - 1];
        forall j | 0 <= j < |out| - 1 ensures IsUpgradeLine(out[1..][j]) {
          assert out[1..][j] == out[j + 1];
        }
        if |out| < |ls| {
          assert ls[1..][|out| - 1] == ls[|out|];
        }
      }
      LeadingRunUnique(ls[1..], out[1..]);
      assert out == [out[0]] + out[1..];
    } else if ls != [] {
      assert !IsUpgradeLine(ls[0]);
    }
  }

  lemma LeadingUpgradeLinesExact(ls: seq<string>, out: seq<string>)
    ensures out == LeadingUpgradeLines(ls) <==> IsLeadingRun(ls, out)
  {
    LeadingUpgradeLinesIsRun(ls);
    if IsLeadingRun(ls, out) {
      LeadingRunUnique(ls, out);
    }
  }

  /** The emitted lines are exactly the run that the source's loop promises. */
  lemma UpgradeLinesExact(lines: seq<string>, out: seq<string>)
    ensures out == UpgradeLines(lines) <==> IsUpgradeRun(lines, out)
  {
    if |lines| > 1 {
      LeadingUpgradeLinesExact(lines[1..], out);
      if IsLeadingRun(lines[1..], out) || IsUpgradeRun(lines, out) {
        assert lines[1..][..|out|] == lines[1..1 + |out|];
      }
    } else if |lines| == 1 {
      assert IsUpgradeRun(lines, out) ==> out == [];
    }
  }

  /**
   * Emission stops at the first short line: a short line at index `i` bounds
   * the output to lines 1 to `i - 1`, so no later line is emitted, long or not.
   */
  lemma StopsAtShortLine(lines: seq<string>, i: nat)
    requires 1 <= i < |lines| && !IsUpgradeLine(lines[i])
    ensures |UpgradeLines(lines)| < i
  {
    UpgradeLinesExact(lines, UpgradeLines(lines));
  }

  /** The component list the constructor builds, or the exception it throws. */
  datatype Rendering = Rendered(components: seq<string>) | SplitIndexOutOfBounds

  /**
   * The widget built from `footer`: `None` is a null footer. When the text
   * after the first "Upgrades" is nothing but further copies of "Upgrades",
   * `split` drops every part after the first and reading part 1 throws.
   */
  function Render(footer: Option<string>): Rendering {
    match footer
    case None => Rendered([NO_DATA])
    case Some(text) =>
      if !Contains(text, UPGRADES) then Rendered([NO_UPGRADES])
      else
        var parts := Split(text, UPGRADES);
        if |parts| < 2 then SplitIndexOutOfBounds
        else Rendered(UpgradeLines(Split(parts[1], NEWLINE)))
  }

  /** The text that follows the first "Upgrades" of a footer containing it. */
  function AfterHeader(text: string): string
    requires Contains(text, UPGRADES)
  {
    text[IndexOf(text, UPGRADES) + |UPGRADES|..]
  }

  /** A null footer and a footer without "Upgrades" each give one fixed line. */
  lemma RenderWithoutUpgrades(footer: Option<string>)
    requires footer.None? || !Contains(footer.value, UPGRADES)
    ensures Render(footer) == Rendered([if footer.None? then NO_DATA else NO_UPGRADES])
  {
  }

  /**
   * A footer containing "Upgrades" makes the constructor throw exactly when
   * all that follows its first "Upgrades" is more copies of "Upgrades" (for
   * one, a footer ending with its only "Upgrades").
   */
  lemma RenderThrows(text: string)
    requires Contains(text, UPGRADES)
    ensures Render(Some(text)).SplitIndexOutOfBounds? <==> OnlyCopies(AfterHeader(text), UPGRADES)
  {
    SplitSecondPart(text, UPGRADES);
  }

  /**
   * Otherwise the parsed segment is the text between the first and the
   * second "Upgrades" (or the end of the footer), split into lines, and the
   * components are the upgrade run of those lines: never line 0, each line
   * unmodified, each of trimmed length at least 3, and so at most one
   * fewer than the lines.
   */
  lemma RenderedSegment(text: string)
    requires Contains(text, UPGRADES) && !OnlyCopies(AfterHeader(text), UPGRADES)
    ensures var lines := Split(Before(AfterHeader(text), UPGRADES), NEWLINE);
      && Render(Some(text)) == Rendered(UpgradeLines(lines))
      && IsUpgradeRun(lines, UpgradeLines(lines))
      && (forall j :: 0 <= j < |UpgradeLines(lines)| ==> Utf16Length(Trim(UpgradeLines(lines)[j])) >= 3)
  {
    SplitSecondPart(text, UPGRADES);
    var seg := Before(AfterHeader(text), UPGRADES);
    assert Split(text, UPGRADES)[1] == seg;
    var lines := Split(seg, NEWLINE);
    UpgradeLinesExact(lines, UpgradeLines(lines));
  }

  /** The widget: the components added so far, in order. */
  class UpgradeWidget {
    var components: seq<string>

    /** The widget as the superclass constructor leaves it: no components. */
    constructor Empty()
      ensures components == []
    {
      components := [];
    }

    method AddComponent(text: string)
      modifies this
      ensures components == old(components) + [text]
    {
      components := components + [text];
    }

    /** The loop over the segment's lines, with its early `break`. */
    method AddUpgradeLines(lines: seq<string>)
      modifies this
      ensures components == old(components) + UpgradeLines(lines)
    {
      ghost var emitted: seq<string> := [];
      var i := 1;
      while i < |lines|
        invariant 1 <= i && (i == 1 || i <= |lines|)
        invariant |emitted| == i - 1
        invariant lines != [] ==> emitted == lines[1..i]
        invariant forall j :: 0 <= j < |emitted| ==> IsUpgradeLine(emitted[j])
        invariant components == old(components) + emitted
      {
        if Utf16Length(Trim(lines[i])) < MIN_LINE_LENGTH {
          break;
        }
        AddComponent(lines[i]);
        emitted := emitted + [lines[i]];
        i := i + 1;
      }
      assert IsUpgradeRun(lines, emitted);
      UpgradeLinesExact(lines, emitted);
    }

    /**
     * The constructor `UpgradeWidget(footertext)`: `None` when it throws
     * because the footer's split has no part 1.
     */
    static method Create(footer: Option<string>) returns (w: Option<UpgradeWidget>)
      ensures w.None? <==> Render(footer).SplitIndexOutOfBounds?
      ensures w.Some? ==> fresh(w.value) && w.value.components == Render(footer).components
    {
      var widget := new UpgradeWidget.Empty();
      if footer.None? {
        widget.AddComponent(NO_DATA);
        return Some(widget);
      }
      var text := footer.value;
      if !Contains(text, UPGRADES) {
        widget.AddComponent(NO_UPGRADES);
        return Some(widget);
      }
      var parts := Split(text, UPGRADES);
      if |parts| < 2 {
        return None;
      }
      var lines := Split(parts[1], NEWLINE);
      widget.AddUpgradeLines(lines);
      w := Some(widget);
    }
  }
}

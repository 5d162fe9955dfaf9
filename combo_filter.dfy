/**
 * The chat filter that hides kill-combo messages. Its anchored pattern
 *   ^(\+\d+ Kill Combo \+\d+(% ✯ Magic Find| coins per kill)
 *    |Your Kill Combo has expired! You reached a \d+ Kill Combo!)$
 * is modelled by a hand-written recognizer, `IsComboMessage`, proved to
 * accept exactly the three message shapes the pattern describes.
 */
module ComboFilter {

  const KILL_COMBO := " Kill Combo +"
  const MAGIC_FIND := "% \U{272F} Magic Find"
  const COINS_PER_KILL := " coins per kill"
  const EXPIRED := "Your Kill Combo has expired! You reached a "
  const EXPIRED_END := " Kill Combo!"
  /** Where the "You" of "You reached" starts in an expired message, the only 'Y' after the first. */
  const SECOND_YOU := |"Your Kill Combo has expired! "|

  /** Java's `\d` without UNICODE_CHARACTER_CLASS: the ASCII digits only. */
  predicate IsDigit(c: char) {
    '0' <= c <= '9'
  }

  /** A run matched by `\d+`: one or more ASCII digits. */
  predicate IsDigits(d: string) {
    |d| > 0 && forall k :: 0 <= k < |d| ==> IsDigit(d[k])
  }

  predicate StartsWith(s: string, prefix: string) {
    |prefix| <= |s| && s[..|prefix|] == prefix
  }

  /** The length of the run of digits at the start of `s`. */
  function DigitRun(s: string): (n: nat)
    ensures n <= |s|
    ensures forall k :: 0 <= k < n ==> IsDigit(s[k])
    ensures n < |s| ==> !IsDigit(s[n])
  {
    if s != [] && IsDigit(s[0]) then 1 + DigitRun(s[1..]) else 0
  }

  /** `\+\d+ Kill Combo \+\d+(% ✯ Magic Find| coins per kill)`, scanned left to right. */
  predicate IsKillComboMessage(s: string) {
    && StartsWith(s, "+")
    && var n := DigitRun(s[1..]);
    && n > 0
    && var rest := s[1 + n..];
    && StartsWith(rest, KILL_COMBO)
    && var bonus := rest[|KILL_COMBO|..];
    && var m := DigitRun(bonus);
    && m > 0
    && (bonus[m..] == MAGIC_FIND || bonus[m..] == COINS_PER_KILL)
  }

  /** `Your Kill Combo has expired! You reached a \d+ Kill Combo!`. */
  predicate IsExpiredMessage(s: string) {
    && StartsWith(s, EXPIRED)
    && var rest := s[|EXPIRED|..];
    && var n := DigitRun(rest);
    && n > 0
    && rest[n..] == EXPIRED_END
  }

  /** Whether the filter's pattern matches the whole message. */
  predicate IsComboMessage(s: string) {
    IsKillComboMessage(s) || IsExpiredMessage(s)
  }

  /** The text after the second number of a kill-combo message. */
  predicate IsReward(t: string) {
    t == MAGIC_FIND || t == COINS_PER_KILL
  }

  /** "+<combo> Kill Combo +<bonus><reward>". */
  function KillComboMessage(combo: string, bonus: string, reward: string): string {
    "+" + combo + KILL_COMBO + bonus + reward
  }

  /** "Your Kill Combo has expired! You reached a <combo> Kill Combo!". */
  function ExpiredMessage(combo: string): string {
    EXPIRED + combo + EXPIRED_END
  }

  /** The language of the pattern, stated by its three shapes. */
  ghost predicate IsComboShape(s: string) {
    || (exists combo, bonus, reward :: IsDigits(combo) && IsDigits(bonus) && IsReward(reward)
          && s == KillComboMessage(combo, bonus, reward))
    || (exists combo :: IsDigits(combo) && s == ExpiredMessage(combo))
  }

  /** A string whose first character differs from that of `p` does not start with `p`. */
  lemma NotStartsWith(s: string, p: string)
    requires p != [] && (s == [] || s[0] != p[0])
    ensures !StartsWith(s, p)
  {
    if |p| <= |s| {
      assert s[..|p|][0] == s[0];
    }
  }

  /** The digit run is all of `d` followed by text that starts with a non-digit. */
  lemma DigitRunOf(d: string, t: string)
    requires IsDigits(d) && (t == [] || !IsDigit(t[0]))
    ensures DigitRun(d + t) == |d|
  {
    assert forall k :: 0 <= k < |d| ==> (d + t)[k] == d[k];
    assert t != [] ==> (d + t)[|d|] == t[0];
  }

  /** Where the parts of a kill-combo message lie. */
  lemma KillComboLayout(c: string, b: string, u: string)
    ensures var s := "+" + c + KILL_COMBO + b + u;
      && s[0] == '+'
      && s[1..] == c + (KILL_COMBO + b + u)
      && s[1 + |c|..] == KILL_COMBO + (b + u)
      && s[1 + |c| + |KILL_COMBO|..] == b + u
      && s[1 + |c| + |KILL_COMBO| + |b|..] == u
  {
    var s := "+" + c + KILL_COMBO + b + u;
    assert s == "+" + (c + (KILL_COMBO + (b + u)));
  }

  /** The expired message opens with "Your". */
  lemma ExpiredOpensWithYour()
    ensures EXPIRED[..4] == "Your"
  {
    assert EXPIRED[0] == 'Y' && EXPIRED[1] == 'o' && EXPIRED[2] == 'u' && EXPIRED[3] == 'r';
  }

  /** Where the parts of an expired message lie. */
  lemma ExpiredLayout(c: string, v: string)
    ensures var s := EXPIRED + c + v;
      && s[0] == 'Y'
      && s[|EXPIRED|..] == c + v
      && s[|EXPIRED| + |c|..] == v
      && s[..4] == "Your"
  {
    var s := EXPIRED + c + v;
    assert s == EXPIRED + (c + v);
    assert (EXPIRED + (c + v))[0] == EXPIRED[0];
    assert (EXPIRED + (c + v))[..4] == EXPIRED[..4];
    ExpiredOpensWithYour();
  }

  /**
   * Scanning a kill-combo prefix with two digit runs: the message is accepted
   * exactly when what follows the second run is one of the two rewards.
   */
  lemma KillComboScan(c: string, b: string, u: string)
    requires IsDigits(c) && IsDigits(b) && (u == [] || !IsDigit(u[0]))
    ensures IsComboMessage("+" + c + KILL_COMBO + b + u) <==> IsReward(u)
  {
    var s := "+" + c + KILL_COMBO + b + u;
    KillComboLayout(c, b, u);
    assert StartsWith(s, "+");
    assert (KILL_COMBO + b + u)[0] == ' ';
    DigitRunOf(c, KILL_COMBO + b + u);
    assert (KILL_COMBO + (b + u))[..|KILL_COMBO|] == KILL_COMBO;
    DigitRunOf(b, u);
    NotStartsWith(s, EXPIRED);
  }

  /**
   * Scanning an expired prefix with one digit run: the message is accepted
   * exactly when what follows the run is " Kill Combo!".
   */
  lemma ExpiredScan(c: string, v: string)
    requires IsDigits(c) && (v == [] || !IsDigit(v[0]))
    ensures IsComboMessage(EXPIRED + c + v) <==> v == EXPIRED_END
  {
    var s := EXPIRED + c + v;
    ExpiredLayout(c, v);
    NotStartsWith(s, "+");
    assert s[..|EXPIRED|] == EXPIRED;
    DigitRunOf(c, v);
  }

  /** Both kill-combo shapes are accepted, for any runs of ASCII digits. */
  lemma AcceptsKillCombo(combo: string, bonus: string, reward: string)
    requires IsDigits(combo) && IsDigits(bonus) && IsReward(reward)
    ensures IsComboMessage(KillComboMessage(combo, bonus, reward))
  {
    assert reward[0] == '%' || reward[0] == ' ';
    KillComboScan(combo, bonus, reward);
  }

  /** The expired shape is accepted, for any run of ASCII digits. */
  lemma AcceptsExpired(combo: string)
    requires IsDigits(combo)
    ensures IsComboMessage(ExpiredMessage(combo))
  {
    assert EXPIRED_END[0] == ' ';
    ExpiredScan(combo, EXPIRED_END);
  }

  /** Every accepted message has one of the three shapes. */
  lemma AcceptedHasShape(s: string)
    requires IsComboMessage(s)
    ensures IsComboShape(s)
  {
    if IsKillComboMessage(s) {
      KillComboHasShape(s);
    } else {
      ExpiredHasShape(s);
    }
  }

  /** Concatenation regrouped to the right. */
  lemma Regroup(p: string, q: string, r: string, u: string, v: string)
    ensures p + q + r + u + v == p + (q + (r + (u + v)))
  {
  }

  /** A string is its prefix of length `i` followed by the rest. */
  lemma Reassemble(x: string, i: nat)
    requires i <= |x|
    ensures x == x[..i] + x[i..]
  {
  }

  /** An accepted kill-combo message splits into its combo, bonus and reward. */
  lemma KillComboHasShape(s: string)
    requires IsKillComboMessage(s)
    ensures exists combo, bonus, reward :: (IsDigits(combo) && IsDigits(bonus) && IsReward(reward)
      && s == KillComboMessage(combo, bonus, reward))
  {
    var t := s[1..];
    var n := DigitRun(t);
    var combo := t[..n];
    var rest := t[n..];
    var bonus := rest[|KILL_COMBO|..];
    var m := DigitRun(bonus);
    var b := bonus[..m];
    var reward := bonus[m..];
    assert IsDigits(combo) by {
      forall k | 0 <= k < |combo| ensures IsDigit(combo[k]) {
        assert combo[k] == t[k];
      }
    }
    assert IsDigits(b) by {
      forall k | 0 <= k < |b| ensures IsDigit(b[k]) {
        assert b[k] == bonus[k];
      }
    }
    assert s == KillComboMessage(combo, b, reward) by {
      Reassemble(s, 1);
      assert s[..1] == "+";
      Reassemble(t, n);
      assert rest == s[1 + n..];
      Reassemble(rest, |KILL_COMBO|);
      Reassemble(bonus, m);
      assert s == "+" + (combo + (KILL_COMBO + (b + reward)));
      Regroup("+", combo, KILL_COMBO, b, reward);
    }
    assert IsReward(reward);
  }

  /** An accepted expired message carries its combo. */
  lemma ExpiredHasShape(s: string)
    requires IsExpiredMessage(s)
    ensures exists combo :: IsDigits(combo) && s == ExpiredMessage(combo)
  {
    var rest := s[|EXPIRED|..];
    var n := DigitRun(rest);
    var combo := rest[..n];
    assert rest == combo + EXPIRED_END;
    assert s == ExpiredMessage(combo);
  }

  /** The recognizer accepts exactly the language of the pattern. */
  lemma RecognizerExact(s: string)
    ensures IsComboMessage(s) <==> IsComboShape(s)
  {
    if IsComboMessage(s) {
      AcceptedHasShape(s);
    }
    if IsComboShape(s) {
      if exists combo, bonus, reward :: IsDigits(combo) && IsDigits(bonus) && IsReward(reward)
          && s == KillComboMessage(combo, bonus, reward) {
        var combo, bonus, reward :| IsDigits(combo) && IsDigits(bonus) && IsReward(reward)
          && s == KillComboMessage(combo, bonus, reward);
        AcceptsKillCombo(combo, bonus, reward);
      } else {
        var combo :| IsDigits(combo) && s == ExpiredMessage(combo);
        AcceptsExpired(combo);
      }
    }
  }

  /** A shorter first number cannot spell the same head of a kill-combo message. */
  lemma ShorterComboDiffers(c: string, b: string, c': string, b': string)
    requires |c| < |c'| && IsDigits(c')
    ensures "+" + c + KILL_COMBO + b != "+" + c' + KILL_COMBO + b'
  {
    var u := "+" + c + KILL_COMBO + b;
    var v := "+" + c' + KILL_COMBO + b';
    assert u[1 + |c|] == KILL_COMBO[0];
    assert v[1 + |c|] == c'[|c|];
  }

  /** A longer first number cannot spell the same head of a kill-combo message. */
  lemma LongerComboDiffers(c: string, b: string, c': string, b': string)
    requires |c| > |c'| && IsDigits(b')
    ensures "+" + c + KILL_COMBO + b != "+" + c' + KILL_COMBO + b'
  {
    var u := "+" + c + KILL_COMBO + b;
    var v := "+" + c' + KILL_COMBO + b';
    if |u| == |v| {
      var k := |c| + |KILL_COMBO|;
      assert u[k] == KILL_COMBO[|KILL_COMBO| - 1];
      assert v[k] == b'[|c| - |c'| - 1];
    }
  }

  /** A kill-combo message ending in a reward is read back into the same three parts. */
  lemma KillComboParts(c: string, b: string, r: string, c': string, b': string, r': string)
    requires IsReward(r) && IsDigits(c') && IsDigits(b') && IsReward(r')
    requires KillComboMessage(c, b, r) == KillComboMessage(c', b', r')
    ensures c == c' && b == b' && r == r'
  {
    var s := KillComboMessage(c, b, r);
    assert s[|s| - 1] == r[|r| - 1] == r'[|r'| - 1];
    assert r == r';
    var u := "+" + c + KILL_COMBO + b;
    var v := "+" + c' + KILL_COMBO + b';
    assert u == s[..|s| - |r|] == v;
    if |c| < |c'| {
      ShorterComboDiffers(c, b, c', b');
    } else if |c| > |c'| {
      LongerComboDiffers(c, b, c', b');
    }
    assert c == u[1..1 + |c|] == c';
    assert b == u[1 + |c| + |KILL_COMBO|..] == b';
  }

  /** An expired message never has the kill-combo shape: they differ in their first character. */
  lemma ShapesDiffer(e: string, c: string, b: string, r: string)
    ensures ExpiredMessage(e) != KillComboMessage(c, b, r)
  {
    ExpiredLayout(e, EXPIRED_END);
    KillComboLayout(c, b, r);
  }

  /**
   * With one of the two rewards at the end, a kill-combo message is accepted
   * exactly when both numbers are non-empty runs of ASCII digits: an empty
   * run, or one holding any other character, is rejected.
   */
  lemma KillComboNeedsDigits(combo: string, bonus: string, reward: string)
    requires IsReward(reward)
    ensures IsComboMessage(KillComboMessage(combo, bonus, reward)) <==> IsDigits(combo) && IsDigits(bonus)
  {
    var s := KillComboMessage(combo, bonus, reward);
    if IsComboMessage(s) {
      AcceptedHasShape(s);
      forall c ensures s != ExpiredMessage(c) {
        ShapesDiffer(c, combo, bonus, reward);
      }
      var c, b, r :| IsDigits(c) && IsDigits(b) && IsReward(r) && s == KillComboMessage(c, b, r);
      KillComboParts(combo, bonus, reward, c, b, r);
    }
    if IsDigits(combo) && IsDigits(bonus) {
      AcceptsKillCombo(combo, bonus, reward);
    }
  }

  /**
   * An expired message is accepted exactly when its number is a non-empty
   * run of ASCII digits.
   */
  lemma ExpiredNeedsDigits(combo: string)
    ensures IsComboMessage(ExpiredMessage(combo)) <==> IsDigits(combo)
  {
    var s := ExpiredMessage(combo);
    if IsComboMessage(s) {
      AcceptedHasShape(s);
      forall c, b, r ensures s != KillComboMessage(c, b, r) {
        ShapesDiffer(combo, c, b, r);
      }
      var c :| IsDigits(c) && s == ExpiredMessage(c);
      ExpiredLayout(c, EXPIRED_END);
      ExpiredLayout(combo, EXPIRED_END);
      assert combo == s[|EXPIRED|..|s| - |EXPIRED_END|] == c;
    }
    if IsDigits(combo) {
      AcceptsExpired(combo);
    }
  }

  /** A kill-combo message has a `+` after its start only right before the bonus. */
  lemma PlusBeforeBonus(c: string, b: string, r: string, k: nat)
    requires IsDigits(c) && IsDigits(b) && IsReward(r)
    requires 1 <= k < |KillComboMessage(c, b, r)| && KillComboMessage(c, b, r)[k] == '+'
    ensures k == |c| + |KILL_COMBO|
  {
  }

  /** A kill-combo message has no `Y`. */
  lemma NoYInKillCombo(c: string, b: string, r: string, k: nat)
    requires IsDigits(c) && IsDigits(b) && IsReward(r)
    requires k < |KillComboMessage(c, b, r)|
    ensures KillComboMessage(c, b, r)[k] != 'Y'
  {
  }

  /** Which characters an expired message has where. */
  lemma ExpiredCharAt(c: string, k: nat)
    requires IsDigits(c) && k < |ExpiredMessage(c)|
    ensures ExpiredMessage(c)[k] != '+'
    ensures ExpiredMessage(c)[k] == 'Y' ==> k == 0 || k == SECOND_YOU
  {
    var s := ExpiredMessage(c);
    assert s == EXPIRED + (c + EXPIRED_END);
    if k < |EXPIRED| {
      assert s[k] == EXPIRED[k];
    } else if k < |EXPIRED| + |c| {
      assert s[k] == c[k - |EXPIRED|];
    } else {
      assert s[k] == EXPIRED_END[k - |EXPIRED| - |c|];
    }
  }

  /** An expired message has no `+`, and no "Your" after its start. */
  lemma ExpiredLetters(c: string, k: nat)
    requires IsDigits(c) && k < |ExpiredMessage(c)|
    ensures ExpiredMessage(c)[k] != '+'
    ensures 1 <= k && k + 4 <= |ExpiredMessage(c)| ==> ExpiredMessage(c)[k..k + 4] != "Your"
  {
    var s := ExpiredMessage(c);
    ExpiredCharAt(c, k);
    if 1 <= k && k + 4 <= |s| {
      assert s[..|EXPIRED|] == EXPIRED;
      // "You" is followed by a space, not the 'r' of "Your"
      assert s[SECOND_YOU + 3] == EXPIRED[SECOND_YOU + 3] == ' ';
      assert s[k..k + 4][0] == s[k];
      assert s[k..k + 4][3] == s[k + 3];
    }
  }

  /** A kill-combo prefix followed by a reward is not itself a kill-combo message. */
  lemma BonusAndRewardRejected(b: string, r: string)
    requires IsDigits(b) && IsReward(r)
    ensures !IsComboMessage("+" + b + r)
  {
    var s := "+" + b + r;
    assert s[0] == '+';
    assert s[1..] == b + r;
    assert r[0] == '%' || r[0] == ' ';
    DigitRunOf(b, r);
    assert s[1 + |b|..] == r;
    assert r[..|KILL_COMBO|][1] == r[1] != KILL_COMBO[1];
    NotStartsWith(s, EXPIRED);
  }

  /** Text appended to a kill-combo message makes it rejected. */
  lemma KillComboRejectsTrailing(c: string, b: string, r: string, x: string)
    requires IsDigits(c) && IsDigits(b) && IsReward(r) && x != []
    ensures !IsComboMessage(KillComboMessage(c, b, r) + x)
  {
    assert KillComboMessage(c, b, r) + x == "+" + c + KILL_COMBO + b + (r + x);
    assert (r + x)[0] == r[0];
    assert r[0] == '%' || r[0] == ' ';
    KillComboScan(c, b, r + x);
    assert |r + x| > |r|;
  }

  /** Text appended to an expired message makes it rejected. */
  lemma ExpiredRejectsTrailing(c: string, x: string)
    requires IsDigits(c) && x != []
    ensures !IsComboMessage(ExpiredMessage(c) + x)
  {
    assert ExpiredMessage(c) + x == EXPIRED + c + (EXPIRED_END + x);
    assert (EXPIRED_END + x)[0] == ' ';
    ExpiredScan(c, EXPIRED_END + x);
    assert |EXPIRED_END + x| > |EXPIRED_END|;
  }

  /** The pattern is anchored at its end: appending text to an accepted message makes it rejected. */
  lemma RejectsTrailingText(s: string, x: string)
    requires IsComboMessage(s) && x != []
    ensures !IsComboMessage(s + x)
  {
    AcceptedHasShape(s);
    if exists c, b, r :: IsDigits(c) && IsDigits(b) && IsReward(r) && s == KillComboMessage(c, b, r) {
      var c, b, r :| IsDigits(c) && IsDigits(b) && IsReward(r) && s == KillComboMessage(c, b, r);
      KillComboRejectsTrailing(c, b, r, x);
    } else {
      var c :| IsDigits(c) && s == ExpiredMessage(c);
      ExpiredRejectsTrailing(c, x);
    }
  }

  /** No proper suffix of a kill-combo message is accepted. */
  lemma KillComboSuffixRejected(c: string, b: string, r: string, p: nat)
    requires IsDigits(c) && IsDigits(b) && IsReward(r)
    requires 1 <= p < |KillComboMessage(c, b, r)|
    ensures !IsComboMessage(KillComboMessage(c, b, r)[p..])
  {
    var m := KillComboMessage(c, b, r);
    var u := m[p..];
    assert u[0] == m[p];
    NoYInKillCombo(c, b, r, p);
    NotStartsWith(u, EXPIRED);
    if m[p] == '+' {
      PlusBeforeBonus(c, b, r, p);
      KillComboLayout(c, b, r);
      assert u == "+" + b + r;
      BonusAndRewardRejected(b, r);
    } else {
      NotStartsWith(u, "+");
    }
  }

  /** No proper suffix of an expired message is accepted. */
  lemma ExpiredSuffixRejected(c: string, p: nat)
    requires IsDigits(c) && 1 <= p < |ExpiredMessage(c)|
    ensures !IsComboMessage(ExpiredMessage(c)[p..])
  {
    var m := ExpiredMessage(c);
    var u := m[p..];
    assert u[0] == m[p];
    ExpiredLetters(c, p);
    NotStartsWith(u, "+");
    if |EXPIRED| <= |u| {
      assert u[..|EXPIRED|][..4] == u[..4] == m[p..p + 4];
      ExpiredOpensWithYour();
    }
  }

  /** The pattern is anchored at its start: text put before an accepted message makes it rejected. */
  lemma RejectsLeadingText(x: string, s: string)
    requires IsComboMessage(s) && x != []
    ensures !IsComboMessage(x + s)
  {
    var t := x + s;
    assert s != [];
    assert t[|x|..] == s;
    if IsComboMessage(t) {
      AcceptedHasShape(t);
      if exists c, b, r :: IsDigits(c) && IsDigits(b) && IsReward(r) && t == KillComboMessage(c, b, r) {
        var c, b, r :| IsDigits(c) && IsDigits(b) && IsReward(r) && t == KillComboMessage(c, b, r);
        KillComboSuffixRejected(c, b, r, |x|);
      } else {
        var c :| IsDigits(c) && t == ExpiredMessage(c);
        ExpiredSuffixRejected(c, |x|);
      }
    }
  }

  /** The last character of a suffix is the last character of the whole. */
  lemma LastOfSuffix(s: string, n: nat, e: string)
    requires n <= |s| && s[n..] == e && e != []
    ensures s[|s| - 1] == e[|e| - 1]
  {
  }

  /**
   * The "Magic Find / coins per kill" alternative belongs to the kill-combo
   * shape only: an expired message followed by either reward is rejected.
   */
  lemma ExpiredTakesNoReward(combo: string, reward: string)
    requires IsReward(reward)
    ensures !IsComboMessage(ExpiredMessage(combo) + reward)
  {
    var s := ExpiredMessage(combo) + reward;
    assert s == EXPIRED + combo + (EXPIRED_END + reward);
    ExpiredLayout(combo, EXPIRED_END + reward);
    NotStartsWith(s, "+");
    assert s[|s| - 1] == reward[|reward| - 1];
    if StartsWith(s, EXPIRED) {
      var rest := s[|EXPIRED|..];
      assert rest[|rest| - 1] == s[|s| - 1];
      var n := DigitRun(rest);
      if rest[n..] == EXPIRED_END {
        LastOfSuffix(rest, n, EXPIRED_END);
      }
    }
  }
}

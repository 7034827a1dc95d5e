/** Which workspace a window is brought back to: names, monitors and the final filter. */
module ShowWorkspaces {
  import opened HyprlandIpc
  import opened Text
  import opened Wrappers

  /** A workspace object of a reply; a missing or ill-typed field is `None`. */
  datatype Workspace = Workspace(id: Option<int>, name: Option<string>)

  datatype Monitor = Monitor(focused: bool, special: string, active: Option<Workspace>)

  function Decimal(n: nat): (r: string)
    ensures |r| > 0 && forall i :: 0 <= i < |r| ==> '0' <= r[i] <= '9'
  {
    (if n < 10 then "" else Decimal(n / 10)) + ['0' + (n % 10) as char]
  }

  predicate Contains(s: string, part: string) {
    exists i :: 0 <= i <= |s| - |part| && part <= s[i..]
  }

  function WorkspaceTarget(w: Workspace): Option<string> {
    if w.id.Some? && w.id.value > 0 then Some(Decimal(w.id.value))
    else if w.name.None? then None
    else
      var name := Trim(w.name.value);
      if name == "" || name == "special" || "special:" <= name || ',' in name then None
      else Some("name:" + name)
  }

  /** The number that decimal digits stand for. */
  function ValueOf(digits: string): nat {
    if digits == "" then 0
    else
      var last := digits[|digits| - 1];
      10 * ValueOf(digits[..|digits| - 1]) + if '0' <= last <= '9' then (last - '0') as nat else 0
  }

  lemma {:induction false} DecimalRoundTrip(n: nat)
    ensures ValueOf(Decimal(n)) == n
    ensures Decimal(n)[0] == '0' ==> n == 0 && Decimal(n) == "0"
  {
    var last := ['0' + (n % 10) as char];
    if n >= 10 {
      DecimalRoundTrip(n / 10);
      assert Decimal(n)[..|Decimal(n)| - 1] == Decimal(n / 10);
    } else {
      assert Decimal(n) == last;
    }
  }

  /** Which workspaces give a target, and which: a positive id as a number, otherwise a regular name. */
  lemma TargetIff(w: Workspace)
    ensures var t := WorkspaceTarget(w);
            if w.id.Some? && w.id.value > 0 then t.Some? && ValueOf(t.value) == w.id.value
            else if w.name.None? then t.None?
            else
              var name := Trim(w.name.value);
              t == if name in {"", "special"} || "special:" <= name || ',' in name then None else Some("name:" + name)
  {
    if w.id.Some? && w.id.value > 0 {
      DecimalRoundTrip(w.id.value);
    }
  }

  predicate IsSafeRestoreTarget(w: string) {
    w != "" && w != "e+0" && w != "special" && !Contains(w, "special:") && ',' !in w
  }

  /** The last filter, spelled out. */
  lemma FilterRejects(before: string, after: string)
    ensures !IsSafeRestoreTarget("") && !IsSafeRestoreTarget("e+0") && !IsSafeRestoreTarget("special")
    ensures !IsSafeRestoreTarget(before + "special:" + after) && !IsSafeRestoreTarget(before + "," + after)
  {
    var w := before + "special:" + after;
    assert w[|before|..][..8] == "special:";
    assert (before + "," + after)[|before|] == ',';
  }

  lemma PartStartsInside(s: string, part: string)
    requires |part| > 0
    ensures Contains(s, part) ==> part[0] in s
  {
    if i :| 0 <= i <= |s| - |part| && part <= s[i..] {
      assert s[i..][0] == part[0];
    }
  }

  lemma PrefixOfConcat(prefix: string, s: string, part: string)
    ensures prefix + part <= prefix + s <==> part <= s
    ensures prefix + part == prefix + s <==> part == s
  {
    var whole := prefix + s;
    if prefix + part <= whole {
      assert whole[|prefix|..] == s;
      assert (prefix + part)[|prefix|..] == part;
      assert part == whole[|prefix|..|prefix| + |part|];
    }
    if prefix + part == whole {
      assert whole[|prefix|..] == s && (prefix + part)[|prefix|..] == part;
    }
  }

  lemma TailOfConcat(prefix: string, s: string, i: nat)
    requires i <= |s|
    ensures (prefix + s)[i + |prefix|..] == s[i..]
  {
  }

  lemma ContainsAfterPrefix(prefix: string, s: string, part: string)
    requires |part| > 0 && part[0] !in prefix
    ensures Contains(prefix + s, part) <==> Contains(s, part)
  {
    var whole := prefix + s;
    if i :| 0 <= i <= |whole| - |part| && part <= whole[i..] {
      assert whole[i..][0] == part[0];
      assert i >= |prefix|;
      TailOfConcat(prefix, s, i - |prefix|);
    }
    if i :| 0 <= i <= |s| - |part| && part <= s[i..] {
      TailOfConcat(prefix, s, i);
    }
  }

  /** A learned target is addressed by a positive number or by `name:`, and the final filter rejects
      exactly the names that mention a special workspace further in. */
  lemma TargetIsSafeIff(w: Workspace)
    requires WorkspaceTarget(w).Some?
    ensures var t := WorkspaceTarget(w).value;
            && (IsSafeRestoreTarget(t) <==>
                  (w.id.Some? && w.id.value > 0) || !Contains(Trim(w.name.value), "special:"))
            && t != "" && t != "e+0" && t != "special" && t != "name:special"
            && !("special:" <= t) && !("name:special:" <= t) && ',' !in t
  {
    var t := WorkspaceTarget(w).value;
    if w.id.Some? && w.id.value > 0 {
      assert 's' !in t && ',' !in t;
      assert t[0] != 'e' && t[0] != 's';
      PartStartsInside(t, "special:");
    } else {
      var name := Trim(w.name.value);
      assert t[0] == 'n';
      ContainsAfterPrefix("name:", name, "special:");
      assert "name:" + "special:" == "name:special:" && "name:" + "special" == "name:special";
      PrefixOfConcat("name:", name, "special:");
      PrefixOfConcat("name:", name, "special");
    }
  }

  function FirstFocused(ms: seq<Monitor>): Option<Monitor> {
    if ms == [] then None else if ms[0].focused then Some(ms[0]) else FirstFocused(ms[1..])
  }

  function FirstSpecialOpen(ms: seq<Monitor>): Option<Monitor> {
    if ms == [] then None else if ms[0].special != "" then Some(ms[0]) else FirstSpecialOpen(ms[1..])
  }

  function Regular(m: Option<Monitor>): Option<string> {
    if m.Some? && m.value.active.Some? then WorkspaceTarget(m.value.active.value) else None
  }

  function FocusedMonitorWorkspace(ms: seq<Monitor>): Option<string> {
    if Regular(FirstFocused(ms)).Some? then Regular(FirstFocused(ms))
    else if Regular(FirstSpecialOpen(ms)).Some? then Regular(FirstSpecialOpen(ms))
    else if |ms| == 1 then Regular(Some(ms[0]))
    else None
  }

  /** A monitor's regular workspace is the target only when the monitor is focused, shows a special
      workspace, or is the only one; the first focused monitor goes before the others. */
  lemma TargetIsOnAnAllowedMonitor(ms: seq<Monitor>)
    ensures Regular(FirstFocused(ms)).Some? ==> FocusedMonitorWorkspace(ms) == Regular(FirstFocused(ms))
    ensures FocusedMonitorWorkspace(ms).Some? ==>
              exists m :: m in ms && Regular(Some(m)) == FocusedMonitorWorkspace(ms)
                          && (m.focused || m.special != "" || ms == [m])
  {
    FirstFocusedIsFocused(ms);
    FirstSpecialIsOpen(ms);
    if |ms| == 1 {
      assert ms == [ms[0]] && ms[0] in ms;
    }
  }

  /** `ms[i]` is the first focused monitor. */
  ghost predicate FocusedFirst(ms: seq<Monitor>, i: nat) {
    i < |ms| && ms[i].focused && forall j :: 0 <= j < i ==> !ms[j].focused
  }

  /** `ms[i]` is the first monitor that shows a special workspace. */
  ghost predicate SpecialFirst(ms: seq<Monitor>, i: nat) {
    i < |ms| && ms[i].special != "" && forall j :: 0 <= j < i ==> ms[j].special == ""
  }

  ghost predicate Offers(m: Monitor, target: string) {
    m.active.Some? && WorkspaceTarget(m.active.value) == Some(target)
  }

  /** Which target a list of monitors gives: that of the first focused monitor; if it offers none, that of the
      first monitor with a special workspace; if that offers none either, that of the only monitor. */
  lemma TargetOfMonitors(ms: seq<Monitor>, target: string)
    ensures FocusedMonitorWorkspace(ms) == Some(target) <==>
            || (exists i: nat :: FocusedFirst(ms, i) && Offers(ms[i], target))
            || (&& (forall i: nat, other :: FocusedFirst(ms, i) ==> !Offers(ms[i], other))
                && exists i: nat :: SpecialFirst(ms, i) && Offers(ms[i], target))
            || (&& (forall i: nat, other :: FocusedFirst(ms, i) || SpecialFirst(ms, i) ==> !Offers(ms[i], other))
                && |ms| == 1 && Offers(ms[0], target))
  {
    forall i: nat | FocusedFirst(ms, i) ensures FirstFocused(ms) == Some(ms[i]) {
      FocusedFound(ms, i);
    }
    forall i: nat | SpecialFirst(ms, i) ensures FirstSpecialOpen(ms) == Some(ms[i]) {
      SpecialFound(ms, i);
    }
    if FirstFocused(ms).Some? {
      var i := FocusedAt(ms);
      assert forall other :: Offers(ms[i], other) <==> Regular(FirstFocused(ms)) == Some(other);
    }
    if FirstSpecialOpen(ms).Some? {
      var i := SpecialAt(ms);
      assert forall other :: Offers(ms[i], other) <==> Regular(FirstSpecialOpen(ms)) == Some(other);
    }
  }

  lemma {:induction false} FocusedAt(ms: seq<Monitor>) returns (i: nat)
    requires FirstFocused(ms).Some?
    ensures FocusedFirst(ms, i) && FirstFocused(ms) == Some(ms[i])
  {
    i := 0;
    if !ms[0].focused {
      i := FocusedAt(ms[1..]);
      i := i + 1;
    }
  }

  lemma {:induction false} SpecialAt(ms: seq<Monitor>) returns (i: nat)
    requires FirstSpecialOpen(ms).Some?
    ensures SpecialFirst(ms, i) && FirstSpecialOpen(ms) == Some(ms[i])
  {
    i := 0;
    if ms[0].special == "" {
      i := SpecialAt(ms[1..]);
      i := i + 1;
    }
  }

  lemma {:induction false} FocusedFound(ms: seq<Monitor>, i: nat)
    requires FocusedFirst(ms, i)
    ensures FirstFocused(ms) == Some(ms[i])
  {
    if i > 0 {
      FocusedFound(ms[1..], i - 1);
    }
  }

  lemma {:induction false} SpecialFound(ms: seq<Monitor>, i: nat)
    requires SpecialFirst(ms, i)
    ensures FirstSpecialOpen(ms) == Some(ms[i])
  {
    if i > 0 {
      SpecialFound(ms[1..], i - 1);
    }
  }

  lemma {:induction false} FirstFocusedIsFocused(ms: seq<Monitor>)
    ensures FirstFocused(ms).Some? ==> FirstFocused(ms).value in ms && FirstFocused(ms).value.focused
    ensures FirstFocused(ms).None? <==> forall m :: m in ms ==> !m.focused
  {
    if ms != [] {
      FirstFocusedIsFocused(ms[1..]);
      assert forall m :: m in ms <==> m == ms[0] || m in ms[1..];
    }
  }

  lemma {:induction false} FirstSpecialIsOpen(ms: seq<Monitor>)
    ensures FirstSpecialOpen(ms).Some? ==> FirstSpecialOpen(ms).value in ms && FirstSpecialOpen(ms).value.special != ""
    ensures FirstSpecialOpen(ms).None? <==> forall m :: m in ms ==> m.special == ""
  {
    if ms != [] {
      FirstSpecialIsOpen(ms[1..]);
      assert forall m :: m in ms <==> m == ms[0] || m in ms[1..];
    }
  }
}

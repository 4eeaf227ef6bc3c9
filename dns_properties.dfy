/** Properties of the DNS-record parameter helpers modelled in module Dns. */
module DnsProperties {
  import opened Dns

  // ---------------------------------------------------------------------------
  // Resource-record type of a parameter name
  // ---------------------------------------------------------------------------

  /** The direct definition of the capture agrees with the grammar reading of
      `([^_]+)record$`, in both directions. */
  lemma RecordPrefixMatchesPattern(name: string, g: string)
    ensures RecordPrefix(name) == Some(g) <==> PatternCaptures(name, g)
  {
    var n := |name|;
    if RecordPrefix(name) == Some(g) {
      if n > 6 && EndsWith(name, RecordSuffix) {
        assert name == name[..n - 6] + name[n - 6..];
      } else {
        assert name == name[..n - 7] + name[n - 7..];
      }
      assert forall i :: 0 <= i < |g| ==> g[i] == name[i];
    }
    if PatternCaptures(name, g) {
      assert forall i :: 0 <= i < |g| ==> name[i] == g[i];
      assert forall i :: 0 <= i < |RecordSuffix| ==> name[|g| + i] == RecordSuffix[i];
      assert '_' !in name by {
        forall i | 0 <= i < n ensures name[i] != '_' {
          if i >= |g| {
            assert name[i] in RecordSuffix + "\n";
          }
        }
      }
      if name == g + RecordSuffix {
        assert name[..n - 6] == g;
      } else {
        assert name[n - 1] == '\n';
        assert !EndsWith(name, RecordSuffix);
        assert name[..n - 7] == g;
      }
    }
  }

  /** For a name without a final newline: a type is derived exactly when the
      name is longer than "record", ends with "record" and holds no underscore,
      and the type is then the upper-cased text before "record". */
  lemma RRTypeOfPlainName(name: string)
    requires |name| == 0 || name[|name| - 1] != '\n'
    ensures GetRecordRRType(name).Some? <==>
      |name| > 6 && EndsWith(name, "record") && '_' !in name
    ensures GetRecordRRType(name).Some? ==>
      GetRecordRRType(name).value == Upper(name[..|name| - 6])
  {
  }

  /** The `$` of the pattern also accepts a name that ends in "record" followed
      by one newline; the newline is not part of the type. */
  lemma RRTypeOfNewlineTerminatedName(name: string)
    requires |name| > 0 && name[|name| - 1] == '\n'
    ensures GetRecordRRType(name).Some? <==>
      |name| > 7 && EndsWith(name, "record\n") && '_' !in name
    ensures GetRecordRRType(name).Some? ==>
      GetRecordRRType(name).value == Upper(name[..|name| - 7])
  {
  }

  // ---------------------------------------------------------------------------
  // Sufficiency of the supplied options
  // ---------------------------------------------------------------------------

  /** A modifier key among the options makes the check pass, whatever else the
      options hold. */
  lemma ModifierKeyPasses(cmd: Command, options: Options, noOptionMsg: string, allowEmptyAttrs: bool, i: nat)
    requires i < |options| && options[i].0 in ModifierKeys
    ensures HasCliOptionsSpec(cmd, options, noOptionMsg, allowEmptyAttrs) == Pass
  {
    assert Keys(options)[i] == options[i].0;
  }

  /** Without a modifier key, the check fails exactly when no option names a
      record parameter or record part of the command with a truthy value (or
      any value, when empty values are allowed), and the failure carries the
      caller's message. */
  lemma HasCliOptionsFailsIff(cmd: Command, options: Options, noOptionMsg: string, allowEmptyAttrs: bool)
    requires !HasModifierKey(options)
    ensures HasCliOptionsSpec(cmd, options, noOptionMsg, allowEmptyAttrs).OptionError? <==>
      forall i :: 0 <= i < |options| ==>
        !(Truthy(options[i].1) || allowEmptyAttrs) ||
        forall p :: p in cmd.params && p.name == options[i].0 ==>
          GetRecordRRType(p.name).None? && DnsrecordPart !in p.flags
    ensures HasCliOptionsSpec(cmd, options, noOptionMsg, allowEmptyAttrs) in {Pass, OptionError(noOptionMsg)}
  {
    forall p | p in cmd.params
      ensures IsObjParam(p) <==> GetRecordRRType(p.name).Some? || DnsrecordPart in p.flags
    {
    }
  }

  /** Allowing empty values never turns a passing check into a failing one. */
  lemma AllowEmptyAttrsMonotonic(cmd: Command, options: Options, noOptionMsg: string)
    requires HasCliOptionsSpec(cmd, options, noOptionMsg, false) == Pass
    ensures HasCliOptionsSpec(cmd, options, noOptionMsg, true) == Pass
  {
    if !HasModifierKey(options) {
      var i :| 0 <= i < |options| && Qualifies(cmd, options[i].0, options[i].1, false);
      assert Qualifies(cmd, options[i].0, options[i].1, true);
    }
  }

  // ---------------------------------------------------------------------------
  // Parent record parameter of a part or extra parameter
  // ---------------------------------------------------------------------------

  lemma SameNameSameParam(params: seq<Param>, p: Param, q: Param)
    requires UniqueNames(params)
    requires p in params && q in params && p.name == q.name
    ensures p == q
  {
    var i :| 0 <= i < |params| && params[i] == p;
    var j :| 0 <= j < |params| && params[j] == q;
    assert i == j;
  }

  /** For the parameter `part` called `partName`: no parent when it is neither
      a part nor an extra, when it has no hint, or when its hint names no
      parameter; otherwise the parent is exactly the parameter its hint names. */
  lemma GetRRParamFromPartCases(cmd: Command, part: Param)
    requires UniqueNames(cmd.params)
    requires part in cmd.params
    ensures !IsPartOrExtra(part) ==> GetRRParamFromPart(cmd, part.name) == None
    ensures part.hint.None? ==> GetRRParamFromPart(cmd, part.name) == None
    ensures part.hint.Some? && (forall q :: q in cmd.params ==> q.name != part.hint.value) ==>
      GetRRParamFromPart(cmd, part.name) == None
    ensures forall parent :: parent in cmd.params && IsPartOrExtra(part) && part.hint == Some(parent.name) ==>
      GetRRParamFromPart(cmd, part.name) == Some(parent)
  {
    LookupFindsNamed(cmd.params, part);
    forall parent | parent in cmd.params && IsPartOrExtra(part) && part.hint == Some(parent.name)
      ensures GetRRParamFromPart(cmd, part.name) == Some(parent)
    {
      LookupFindsNamed(cmd.params, parent);
    }
  }

  // ---------------------------------------------------------------------------
  // Parent record parameters touched by a set of options
  // ---------------------------------------------------------------------------

  /** The key brings in a parent of the given name. */
  predicate BringsIn(cmd: Command, key: string, skipExtra: bool, name: string) {
    var c := Contribution(cmd, key, skipExtra);
    c.Some? && c.value.name == name
  }

  predicate DistinctNames(ps: seq<Param>) {
    forall i, j :: 0 <= i < j < |ps| ==> ps[i].name != ps[j].name
  }

  /** No name is yielded twice. */
  lemma {:induction false} YieldedDistinct(cmd: Command, keys: seq<string>, skipExtra: bool)
    ensures DistinctNames(Yielded(cmd, keys, skipExtra))
  {
    if keys != [] {
      var prev := Yielded(cmd, keys[..|keys| - 1], skipExtra);
      var out := Yielded(cmd, keys, skipExtra);
      YieldedDistinct(cmd, keys[..|keys| - 1], skipExtra);
      if out != prev {
        var p := Contribution(cmd, keys[|keys| - 1], skipExtra).value;
        assert out == prev + [p] && p.name !in Names(prev);
        forall i, j | 0 <= i < j < |out| ensures out[i].name != out[j].name {
          assert out[i] == prev[i];
          if j == |prev| {
            assert out[j] == p;
            assert Names(prev)[i] == prev[i].name;
          } else {
            assert out[j] == prev[j];
          }
        }
      }
    }
  }

  /** Every yielded parent is contributed by some key. */
  lemma {:induction false} YieldedFromContributions(cmd: Command, keys: seq<string>, skipExtra: bool)
    ensures forall p :: p in Yielded(cmd, keys, skipExtra) ==>
      exists i :: 0 <= i < |keys| && Contribution(cmd, keys[i], skipExtra) == Some(p)
  {
    if keys != [] {
      var init := keys[..|keys| - 1];
      YieldedFromContributions(cmd, init, skipExtra);
      forall p | p in Yielded(cmd, keys, skipExtra)
        ensures exists i :: 0 <= i < |keys| && Contribution(cmd, keys[i], skipExtra) == Some(p)
      {
        if p in Yielded(cmd, init, skipExtra) {
          var i :| 0 <= i < |init| && Contribution(cmd, init[i], skipExtra) == Some(p);
          assert init[i] == keys[i];
        } else {
          assert Contribution(cmd, keys[|keys| - 1], skipExtra) == Some(p);
        }
      }
    }
  }

  /** Every yielded parent is the parent of some key that is not skipped. */
  lemma YieldedSound(cmd: Command, keys: seq<string>, skipExtra: bool)
    ensures forall p :: p in Yielded(cmd, keys, skipExtra) ==>
      p in cmd.params &&
      exists i :: 0 <= i < |keys| && GetRRParamFromPart(cmd, keys[i]) == Some(p) &&
        !(skipExtra && IsExtraKey(cmd, keys[i]))
  {
    YieldedFromContributions(cmd, keys, skipExtra);
    forall p | p in Yielded(cmd, keys, skipExtra)
      ensures p in cmd.params &&
        exists i :: 0 <= i < |keys| && GetRRParamFromPart(cmd, keys[i]) == Some(p) &&
          !(skipExtra && IsExtraKey(cmd, keys[i]))
    {
      var i :| 0 <= i < |keys| && Contribution(cmd, keys[i], skipExtra) == Some(p);
      assert GetRRParamFromPart(cmd, keys[i]) == Some(p);
    }
  }

  /** Every name a key brings in is among the yielded names. */
  lemma {:induction false} YieldedCoversNames(cmd: Command, keys: seq<string>, skipExtra: bool)
    ensures forall i, n :: 0 <= i < |keys| && BringsIn(cmd, keys[i], skipExtra, n) ==>
      n in Names(Yielded(cmd, keys, skipExtra))
  {
    if keys != [] {
      var init := keys[..|keys| - 1];
      YieldedCoversNames(cmd, init, skipExtra);
      var prev := Yielded(cmd, init, skipExtra);
      var out := Yielded(cmd, keys, skipExtra);
      assert out[..|prev|] == prev;
      forall i, n | 0 <= i < |keys| && BringsIn(cmd, keys[i], skipExtra, n)
        ensures n in Names(out)
      {
        if i < |init| {
          assert init[i] == keys[i];
          assert BringsIn(cmd, init[i], skipExtra, n);
          assert n in Names(prev);
          var k :| 0 <= k < |prev| && Names(prev)[k] == n;
          assert Names(out)[k] == n;
        } else if n in Names(prev) {
          var k :| 0 <= k < |prev| && Names(prev)[k] == n;
          assert Names(out)[k] == n;
        } else {
          assert Names(out)[|prev|] == n;
        }
      }
    }
  }

  /** Every key that is not skipped and has a parent brings that parent into
      the output. */
  lemma YieldedComplete(cmd: Command, keys: seq<string>, skipExtra: bool)
    ensures forall i ::
      (0 <= i < |keys| && GetRRParamFromPart(cmd, keys[i]).Some? && !(skipExtra && IsExtraKey(cmd, keys[i]))) ==>
        GetRRParamFromPart(cmd, keys[i]).value in Yielded(cmd, keys, skipExtra)
  {
    YieldedCoversNames(cmd, keys, skipExtra);
    YieldedSound(cmd, keys, skipExtra);
    var out := Yielded(cmd, keys, skipExtra);
    forall i | 0 <= i < |keys| && GetRRParamFromPart(cmd, keys[i]).Some? &&
      !(skipExtra && IsExtraKey(cmd, keys[i]))
      ensures GetRRParamFromPart(cmd, keys[i]).value in out
    {
      var p := GetRRParamFromPart(cmd, keys[i]).value;
      assert BringsIn(cmd, keys[i], skipExtra, p.name);
      assert p.name in Names(out);
      var k :| 0 <= k < |out| && Names(out)[k] == p.name;
      // Both parents are what indexing the parameters by that name gives.
      var a :| 0 <= a < |keys| && GetRRParamFromPart(cmd, keys[a]) == Some(out[k]) &&
        !(skipExtra && IsExtraKey(cmd, keys[a]));
      assert Lookup(cmd.params, p.name) == Some(out[k]);
    }
  }

  /** Parents are yielded in the order of the first key that brings each in:
      for outputs `i < j`, every key `b` that brings in the later one comes after
      some key that brings in the earlier one. */
  lemma {:induction false} YieldedOrder(cmd: Command, keys: seq<string>, skipExtra: bool, i: nat, j: nat, b: nat)
    requires i < j < |Yielded(cmd, keys, skipExtra)|
    requires b < |keys| && BringsIn(cmd, keys[b], skipExtra, Yielded(cmd, keys, skipExtra)[j].name)
    ensures exists a :: 0 <= a < b && BringsIn(cmd, keys[a], skipExtra, Yielded(cmd, keys, skipExtra)[i].name)
  {
    var last := |keys| - 1;
    var init := keys[..last];
    YieldedFromContributions(cmd, init, skipExtra);
    YieldedCoversNames(cmd, init, skipExtra);
    var prev := Yielded(cmd, init, skipExtra);
    var out := Yielded(cmd, keys, skipExtra);
    assert out[..|prev|] == prev;
    assert out[i] == prev[i];
    if b < last {
      assert init[b] == keys[b];
      if j < |prev| {
        assert out[j] == prev[j];
        YieldedOrder(cmd, init, skipExtra, i, j, b);
        var a :| 0 <= a < b && BringsIn(cmd, init[a], skipExtra, prev[i].name);
        assert init[a] == keys[a];
      } else {
        assert false;
      }
    } else {
      var a :| 0 <= a < |init| && Contribution(cmd, init[a], skipExtra) == Some(prev[i]);
      assert init[a] == keys[a];
      assert BringsIn(cmd, keys[a], skipExtra, out[i].name);
    }
  }

  /** Skipping extras yields no parent that the full walk does not yield. */
  lemma SkipExtraYieldsSubset(cmd: Command, keys: seq<string>)
    ensures forall p :: p in Yielded(cmd, keys, true) ==> p in Yielded(cmd, keys, false)
  {
    YieldedSound(cmd, keys, true);
    YieldedComplete(cmd, keys, false);
  }

  /** One more key extends the walk by the parent it brings in, when no parent
      of that name was yielded before. */
  lemma YieldedSnocNew(cmd: Command, keys: seq<string>, key: string, skipExtra: bool, p: Param)
    requires Contribution(cmd, key, skipExtra) == Some(p)
    requires p.name !in Names(Yielded(cmd, keys, skipExtra))
    ensures Yielded(cmd, keys + [key], skipExtra) == Yielded(cmd, keys, skipExtra) + [p]
  {
    assert (keys + [key])[..|keys|] == keys;
  }

  /** One more key leaves the walk as it was when it brings in no parent, or a
      parent whose name was yielded before. */
  lemma YieldedSnocKnown(cmd: Command, keys: seq<string>, key: string, skipExtra: bool)
    requires var c := Contribution(cmd, key, skipExtra);
      c.None? || c.value.name in Names(Yielded(cmd, keys, skipExtra))
    ensures Yielded(cmd, keys + [key], skipExtra) == Yielded(cmd, keys, skipExtra)
  {
    assert (keys + [key])[..|keys|] == keys;
  }
}

/** Worked examples of the walk over option keys that collects parent record
    parameters, on any command that declares the example parameters of module
    DnsExamples. */
module DnsWalkExamples {
  import opened Dns
  import opened DnsProperties
  import opened DnsExamples

  lemma IterateExampleOneKey(cmd: Command)
    requires DeclaresExamples(cmd)
    ensures Yielded(cmd, ["mx_part_preference"], false) == [Mx]
  {
    var k0 := "mx_part_preference";
    assert Contribution(cmd, k0, false) == Some(Mx) by { ContributionExamples(cmd); }
    YieldedSnocNew(cmd, [], k0, false, Mx);
    assert [] + [k0] == [k0];
  }

  lemma IterateExampleTwoKeys(cmd: Command)
    requires DeclaresExamples(cmd)
    ensures Yielded(cmd, ["mx_part_preference", "mx_part_exchanger"], false) == [Mx]
  {
    IterateExampleOneKey(cmd);
    var ks, k1 := ["mx_part_preference"], "mx_part_exchanger";
    assert Contribution(cmd, k1, false) == Some(Mx) by { ContributionExamples(cmd); }
    assert "mxrecord" in Names(Yielded(cmd, ks, false)) by {
      assert Names([Mx]) == ["mxrecord"];
    }
    YieldedSnocKnown(cmd, ks, k1, false);
    assert ks + [k1] == ["mx_part_preference", "mx_part_exchanger"];
  }

  /** Two parts of one record and a part of another record yield each record
      once, in the order of their first part. */
  lemma IterateExample(cmd: Command)
    requires DeclaresExamples(cmd)
    ensures Yielded(cmd, ["mx_part_preference", "mx_part_exchanger", "a_part_ip_address"], false) == [Mx, A]
  {
    IterateExampleTwoKeys(cmd);
    var ks, k2 := ["mx_part_preference", "mx_part_exchanger"], "a_part_ip_address";
    assert Contribution(cmd, k2, false) == Some(A) by { ContributionExamples(cmd); }
    assert "arecord" !in Names(Yielded(cmd, ks, false)) by {
      assert Names([Mx]) == ["mxrecord"];
    }
    YieldedSnocNew(cmd, ks, k2, false, A);
    assert ks + [k2] == ["mx_part_preference", "mx_part_exchanger", "a_part_ip_address"];
  }

  /** `s` occurs in `t` in order, possibly with gaps. */
  predicate IsSubsequence(s: seq<Param>, t: seq<Param>)
  {
    if s == [] then true
    else if t == [] then false
    else if s[0] == t[0] then IsSubsequence(s[1..], t[1..])
    else IsSubsequence(s, t[1..])
  }

  lemma ExtraFirstOneKey(cmd: Command)
    requires DeclaresExamples(cmd)
    ensures Yielded(cmd, ["mx_extra_ttl"], false) == [Mx]
    ensures Yielded(cmd, ["mx_extra_ttl"], true) == []
  {
    var k0 := "mx_extra_ttl";
    assert Contribution(cmd, k0, false) == Some(Mx) && Contribution(cmd, k0, true) == None by {
      ContributionExamples(cmd);
    }
    YieldedSnocNew(cmd, [], k0, false, Mx);
    YieldedSnocKnown(cmd, [], k0, true);
    assert [] + [k0] == [k0];
  }

  lemma ExtraFirstTwoKeys(cmd: Command)
    requires DeclaresExamples(cmd)
    ensures Yielded(cmd, ["mx_extra_ttl", "a_part_ip_address"], false) == [Mx, A]
    ensures Yielded(cmd, ["mx_extra_ttl", "a_part_ip_address"], true) == [A]
  {
    ExtraFirstOneKey(cmd);
    var ks, k1 := ["mx_extra_ttl"], "a_part_ip_address";
    assert Contribution(cmd, k1, false) == Some(A) && Contribution(cmd, k1, true) == Some(A) by {
      ContributionExamples(cmd);
    }
    assert "arecord" !in Names(Yielded(cmd, ks, false)) by {
      assert Names([Mx]) == ["mxrecord"];
    }
    YieldedSnocNew(cmd, ks, k1, false, A);
    YieldedSnocNew(cmd, ks, k1, true, A);
    assert ks + [k1] == ["mx_extra_ttl", "a_part_ip_address"];
  }

  /** Skipping extras can change the order of the yielded parents: an extra key
      that comes first brings its parent in early only when it is not skipped,
      so the walk that skips extras is not always a subsequence of the walk
      that keeps them (`Cmd` is a command this applies to). */
  lemma SkipExtraReorders(cmd: Command)
    requires DeclaresExamples(cmd)
    ensures Yielded(cmd, ["mx_extra_ttl", "a_part_ip_address", "mx_part_preference"], false) == [Mx, A]
    ensures Yielded(cmd, ["mx_extra_ttl", "a_part_ip_address", "mx_part_preference"], true) == [A, Mx]
    ensures !IsSubsequence(
      Yielded(cmd, ["mx_extra_ttl", "a_part_ip_address", "mx_part_preference"], true),
      Yielded(cmd, ["mx_extra_ttl", "a_part_ip_address", "mx_part_preference"], false))
  {
    ExtraFirstTwoKeys(cmd);
    var ks, k2 := ["mx_extra_ttl", "a_part_ip_address"], "mx_part_preference";
    assert Contribution(cmd, k2, false) == Some(Mx) && Contribution(cmd, k2, true) == Some(Mx) by {
      ContributionExamples(cmd);
    }
    assert "mxrecord" in Names(Yielded(cmd, ks, false)) by {
      assert Names([Mx, A])[0] == "mxrecord";
    }
    YieldedSnocKnown(cmd, ks, k2, false);
    assert "mxrecord" !in Names(Yielded(cmd, ks, true)) by {
      assert Names([A]) == ["arecord"];
    }
    YieldedSnocNew(cmd, ks, k2, true, Mx);
    assert ks + [k2] == ["mx_extra_ttl", "a_part_ip_address", "mx_part_preference"];
    assert !IsSubsequence([A, Mx], [Mx, A]) by {
      assert [A, Mx][1..] == [Mx];
      assert IsSubsequence([A, Mx], [Mx, A]) == IsSubsequence([A, Mx], [A]);
      assert IsSubsequence([A, Mx], [A]) == IsSubsequence([Mx], []);
    }
  }
}

/** Worked examples of the DNS-record parameter helpers. The resolution
    examples hold on every command that declares the MX and A record
    parameters, parts of both, an extra of the MX record and a part with a
    dangling hint, under unique names; `Cmd` is one such command. */
module DnsExamples {
  import opened Dns
  import opened DnsProperties

  const Mx := Param("mxrecord", {}, None)
  const A := Param("arecord", {}, None)
  const MxPreference := Param("mx_part_preference", {DnsrecordPart}, Some("mxrecord"))
  const MxExchanger := Param("mx_part_exchanger", {DnsrecordPart}, Some("mxrecord"))
  const AIpAddress := Param("a_part_ip_address", {DnsrecordPart}, Some("arecord"))
  const MxTtl := Param("mx_extra_ttl", {DnsrecordExtra}, Some("mxrecord"))
  const MxDangling := Param("mx_part_weight", {DnsrecordPart}, Some("nonexistent"))

  const Cmd := Command([Mx, A, MxPreference, MxExchanger, AIpAddress, MxTtl, MxDangling])

  /** `cmd` declares every example parameter under a unique name, and nothing
      called "nonexistent" or "txtrecord". */
  predicate DeclaresExamples(cmd: Command) {
    && UniqueNames(cmd.params)
    && Mx in cmd.params && A in cmd.params
    && MxPreference in cmd.params && MxExchanger in cmd.params && AIpAddress in cmd.params
    && MxTtl in cmd.params && MxDangling in cmd.params
    && forall p :: p in cmd.params ==> p.name != "nonexistent" && p.name != "txtrecord"
  }

  lemma CmdHasUniqueNames()
    ensures UniqueNames(Cmd.params)
  {
    assert "a_part_ip_address"[0] != "mx_part_exchanger"[0];
  }

  lemma CmdDeclaresExamples()
    ensures DeclaresExamples(Cmd)
  {
    CmdHasUniqueNames();
  }

  // ---------------------------------------------------------------------------
  // Resource-record type of a parameter name
  // ---------------------------------------------------------------------------

  lemma RRTypeExamples()
    ensures GetRecordRRType("mxrecord") == Some("MX")
    ensures GetRecordRRType("arecord") == Some("A")
    ensures GetRecordRRType("record") == None
    ensures GetRecordRRType("mx_part") == None
    ensures GetRecordRRType("mx_part_record") == None
    ensures GetRecordRRType("") == None
    ensures GetRecordRRType("mxrecord\n") == Some("MX")
  {
    assert "mxrecord"[..2] == "mx";
    assert Upper("mx") == "MX";
    assert "arecord"[..1] == "a";
    assert Upper("a") == "A";
    assert "mx_part"[2] == '_';
    assert "mx_part_record"[2] == '_';
    assert "mxrecord\n"[..2] == "mx";
    assert !EndsWith("mxrecord\n", RecordSuffix) by {
      assert "mxrecord\n"[8] != RecordSuffix[5];
    }
  }

  // ---------------------------------------------------------------------------
  // Sufficiency of the supplied options
  // ---------------------------------------------------------------------------

  /** An empty value for a record parameter counts only when empty values are
      allowed. */
  lemma EmptyValueCountsOnlyWhenAllowed()
    ensures HasCliOptionsSpec(Command([Mx]), [("mxrecord", "")], "no options", false) == OptionError("no options")
    ensures HasCliOptionsSpec(Command([Mx]), [("mxrecord", "")], "no options", true) == Pass
  {
    var options := [("mxrecord", "")];
    RRTypeExamples();
    assert IsObjParam(Mx);
    assert ObjParamNames([Mx]) == ["mxrecord"];
    assert Keys(options) == ["mxrecord"];
    assert !HasModifierKey(options);
    assert Qualifies(Command([Mx]), options[0].0, options[0].1, true);
  }

  /** An extra parameter on its own never counts as record data. */
  lemma ExtraAloneIsInsufficient()
    ensures HasCliOptionsSpec(Command([Mx, MxTtl]), [("mx_extra_ttl", "3600")], "no options", true)
      == OptionError("no options")
  {
    var options := [("mx_extra_ttl", "3600")];
    assert "mx_extra_ttl"[2] == '_';
    assert GetRecordRRType(MxTtl.name) == None;
    assert !IsObjParam(MxTtl);
    assert "mx_extra_ttl" !in ObjParamNames([Mx, MxTtl]);
    assert Keys(options) == ["mx_extra_ttl"];
    assert !HasModifierKey(options);
  }

  // ---------------------------------------------------------------------------
  // Parent record parameter of a part or extra parameter
  // ---------------------------------------------------------------------------

  /** A part or an extra resolves to the record its hint names. */
  lemma PartsResolveToTheirRecord(cmd: Command)
    requires DeclaresExamples(cmd)
    ensures GetRRParamFromPart(cmd, "mx_part_preference") == Some(Mx)
    ensures GetRRParamFromPart(cmd, "mx_part_exchanger") == Some(Mx)
    ensures GetRRParamFromPart(cmd, "a_part_ip_address") == Some(A)
    ensures GetRRParamFromPart(cmd, "mx_extra_ttl") == Some(Mx)
  {
    GetRRParamFromPartCases(cmd, MxPreference);
    GetRRParamFromPartCases(cmd, MxExchanger);
    GetRRParamFromPartCases(cmd, AIpAddress);
    GetRRParamFromPartCases(cmd, MxTtl);
  }

  /** A dangling hint, a record parameter itself and an unknown name resolve to
      nothing. */
  lemma OthersResolveToNothing(cmd: Command)
    requires DeclaresExamples(cmd)
    ensures GetRRParamFromPart(cmd, "mx_part_weight") == None
    ensures GetRRParamFromPart(cmd, "mxrecord") == None
    ensures GetRRParamFromPart(cmd, "txtrecord") == None
  {
    GetRRParamFromPartCases(cmd, MxDangling);
    GetRRParamFromPartCases(cmd, Mx);
  }

  lemma ExtraKeyExamples(cmd: Command)
    requires DeclaresExamples(cmd)
    ensures IsExtraKey(cmd, "mx_extra_ttl")
    ensures !IsExtraKey(cmd, "mx_part_preference")
    ensures !IsExtraKey(cmd, "mx_part_exchanger")
    ensures !IsExtraKey(cmd, "a_part_ip_address")
  {
    LookupFindsNamed(cmd.params, MxTtl);
    LookupFindsNamed(cmd.params, MxPreference);
    LookupFindsNamed(cmd.params, MxExchanger);
    LookupFindsNamed(cmd.params, AIpAddress);
  }

  // ---------------------------------------------------------------------------
  // Parent record parameters touched by a set of options
  // ---------------------------------------------------------------------------

  lemma ContributionExamples(cmd: Command)
    requires DeclaresExamples(cmd)
    ensures Contribution(cmd, "mx_part_preference", false) == Some(Mx)
    ensures Contribution(cmd, "mx_part_preference", true) == Some(Mx)
    ensures Contribution(cmd, "mx_part_exchanger", false) == Some(Mx)
    ensures Contribution(cmd, "a_part_ip_address", false) == Some(A)
    ensures Contribution(cmd, "a_part_ip_address", true) == Some(A)
    ensures Contribution(cmd, "mx_extra_ttl", false) == Some(Mx)
    ensures Contribution(cmd, "mx_extra_ttl", true) == None
  {
    PartsResolveToTheirRecord(cmd);
    ExtraKeyExamples(cmd);
  }
}

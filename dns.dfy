/** Helpers that interpret the DNS-record parameters of an administration
    command: the resource-record type named by a parameter, the check that an
    invocation supplied record data, the resolution of a record "part" or
    "extra" parameter to its parent record parameter, and the enumeration of the
    parent record parameters that a set of options touches.

    A command is a sequence of parameters with unique names, options are an
    ordered sequence of (key, value) pairs, and an option value is truthy
    exactly when it is non-empty. */
module Dns {

  datatype Option<T> = None | Some(value: T)

  // ---------------------------------------------------------------------------
  // Resource-record type of a parameter name
  // ---------------------------------------------------------------------------

  const RecordSuffix: string := "record"

  predicate EndsWith(s: string, suffix: string) {
    |suffix| <= |s| && s[|s| - |suffix|..] == suffix
  }

  predicate IsAsciiLower(c: char) {
    'a' <= c <= 'z'
  }

  /** Upper-casing of one character, on the ASCII letters only. */
  function UpperChar(c: char): char {
    if IsAsciiLower(c) then (c as int - 'a' as int + 'A' as int) as char else c
  }

  /** Upper-casing of a string, on the ASCII letters only. */
  function Upper(s: string): (u: string)
    ensures |u| == |s|
    ensures forall i :: 0 <= i < |u| ==> !IsAsciiLower(u[i])
    ensures forall i :: 0 <= i < |u| ==> (u[i] == '_' <==> s[i] == '_')
  {
    seq(|s|, i requires 0 <= i < |s| => UpperChar(s[i]))
  }

  /** What group 1 of the pattern `([^_]+)record$` captures when it is matched
      at the start of `name`, or None when the pattern does not match. The class
      `[^_]` takes every character but the underscore (a newline included), and
      `$` accepts the end of the string or a position just before one final
      newline. */
  function RecordPrefix(name: string): Option<string>
  {
    if '_' in name then None
    else if |name| > |RecordSuffix| && EndsWith(name, RecordSuffix) then
      Some(name[..|name| - |RecordSuffix|])
    else if |name| > |RecordSuffix| + 1 && EndsWith(name, RecordSuffix + "\n") then
      Some(name[..|name| - |RecordSuffix| - 1])
    else None
  }

  /** The reading of the pattern as a grammar: `g` is a capture when it is a
      non-empty run of non-underscore characters followed by "record" and by
      what `$` accepts. */
  predicate PatternCaptures(name: string, g: string) {
    |g| > 0 && '_' !in g &&
    (name == g + RecordSuffix || name == g + RecordSuffix + "\n")
  }

  /** The resource-record type named by a parameter: the capture, upper-cased. */
  function GetRecordRRType(name: string): (r: Option<string>)
    ensures r.Some? ==> 0 < |r.value| < |name|
    ensures r.Some? ==> '_' !in r.value
    ensures r.Some? ==> forall i :: 0 <= i < |r.value| ==> !IsAsciiLower(r.value[i])
  {
    match RecordPrefix(name)
    case None => None
    case Some(g) =>
      assert forall i :: 0 <= i < |g| ==> g[i] == name[i];
      Some(Upper(g))
  }

  // ---------------------------------------------------------------------------
  // Parameters and commands
  // ---------------------------------------------------------------------------

  const DnsrecordPart: string := "dnsrecord_part"
  const DnsrecordExtra: string := "dnsrecord_extra"

  /** A command parameter: its name, its flags, and the optional hint that a
      part or extra parameter uses to name its parent record parameter. */
  datatype Param = Param(name: string, flags: set<string>, hint: Option<string>)

  /** A command, through the parameters it declares, in declaration order. */
  datatype Command = Command(params: seq<Param>)

  predicate UniqueNames(params: seq<Param>) {
    forall i, j :: 0 <= i < j < |params| ==> params[i].name != params[j].name
  }

  /** Name-keyed lookup of a parameter; None where the lookup would fail. */
  function Lookup(params: seq<Param>, name: string): (r: Option<Param>)
    ensures r.Some? ==> r.value in params && r.value.name == name
    ensures r.None? ==> forall p :: p in params ==> p.name != name
  {
    if params == [] then None
    else if params[0].name == name then Some(params[0])
    else Lookup(params[1..], name)
  }

  /** With unique names, the lookup finds every parameter by its name. */
  lemma LookupFindsNamed(params: seq<Param>, p: Param)
    requires UniqueNames(params)
    requires p in params
    ensures Lookup(params, p.name) == Some(p)
  {
    // Lookup finds some parameter named `p.name`, and with unique names that
    // parameter is `p`.
  }

  // ---------------------------------------------------------------------------
  // Parent record parameter of a part or extra parameter
  // ---------------------------------------------------------------------------

  predicate IsPartOrExtra(p: Param) {
    DnsrecordPart in p.flags || DnsrecordExtra in p.flags
  }

  /** The record parameter that the part or extra parameter `partName` belongs
      to, or None when there is none to be found. */
  function GetRRParamFromPart(cmd: Command, partName: string): (r: Option<Param>)
    ensures (forall p :: p in cmd.params ==> p.name != partName) ==> r.None?
    ensures r.Some? ==> r.value in cmd.params
    ensures r.Some? ==>
      exists part :: part in cmd.params && part.name == partName &&
        IsPartOrExtra(part) && part.hint == Some(r.value.name)
    ensures r.Some? ==> Lookup(cmd.params, r.value.name) == r
  {
    match Lookup(cmd.params, partName)
    case None => None
    case Some(param) =>
      if !IsPartOrExtra(param) then None
      else
        match param.hint
        case None => None
        case Some(h) => Lookup(cmd.params, h)
  }

  // ---------------------------------------------------------------------------
  // Sufficiency of the supplied options
  // ---------------------------------------------------------------------------

  /** The options of one invocation, in their insertion order. */
  type Options = seq<(string, string)>

  function Keys(options: Options): seq<string>
  {
    seq(|options|, i requires 0 <= i < |options| => options[i].0)
  }

  predicate Truthy(value: string) {
    value != []
  }

  /** Keys that switch the command to generic attribute editing. */
  const ModifierKeys: seq<string> := ["setattr", "addattr", "delattr", "rename"]

  predicate HasModifierKey(options: Options) {
    exists k :: k in ModifierKeys && k in Keys(options)
  }

  /** A parameter that carries record data: a record parameter (its name has a
      truthy resource-record type) or a record part. */
  predicate IsObjParam(p: Param) {
    var t := GetRecordRRType(p.name);
    (t.Some? && t.value != []) || DnsrecordPart in p.flags
  }

  /** Names of the parameters that carry record data, in declaration order. */
  function ObjParamNames(params: seq<Param>): (names: seq<string>)
    ensures |names| <= |params|
    ensures forall n :: n in names <==> exists p :: p in params && IsObjParam(p) && p.name == n
  {
    if params == [] then []
    else
      var rest := ObjParamNames(params[1..]);
      assert forall p :: p in params[1..] ==> p in params;
      assert forall p :: p in params ==> p == params[0] || p in params[1..];
      (if IsObjParam(params[0]) then [params[0].name] else []) + rest
  }

  /** An option that counts as supplied record data. */
  predicate Qualifies(cmd: Command, key: string, value: string, allowEmptyAttrs: bool) {
    key in ObjParamNames(cmd.params) && (Truthy(value) || allowEmptyAttrs)
  }

  /** The outcome of the sufficiency check: success, or the option error with
      the caller's message. */
  datatype Outcome = Pass | OptionError(message: string)

  /** The sufficiency check stated over the whole set of options. */
  function HasCliOptionsSpec(cmd: Command, options: Options, noOptionMsg: string, allowEmptyAttrs: bool): Outcome
  {
    if HasModifierKey(options) then Pass
    else if exists i :: 0 <= i < |options| && Qualifies(cmd, options[i].0, options[i].1, allowEmptyAttrs) then Pass
    else OptionError(noOptionMsg)
  }

  /** Scans the options in order and stops at the first one that counts. */
  method HasCliOptions(cmd: Command, options: Options, noOptionMsg: string, allowEmptyAttrs: bool)
    returns (r: Outcome)
    ensures r == HasCliOptionsSpec(cmd, options, noOptionMsg, allowEmptyAttrs)
  {
    if HasModifierKey(options) {
      return Pass;
    }
    var hasOptions := false;
    var i := 0;
    while i < |options|
      invariant 0 <= i <= |options|
      invariant !hasOptions
      invariant forall j :: 0 <= j < i ==> !Qualifies(cmd, options[j].0, options[j].1, allowEmptyAttrs)
    {
      var (attr, value) := options[i];
      var objParams := ObjParamNames(cmd.params);
      if attr in objParams {
        if Truthy(value) || allowEmptyAttrs {
          hasOptions := true;
          break;
        }
      }
      i := i + 1;
    }
    if !hasOptions {
      return OptionError(noOptionMsg);
    }
    return Pass;
  }

  // ---------------------------------------------------------------------------
  // Parent record parameters touched by a set of options
  // ---------------------------------------------------------------------------

  /** The option key names a parameter flagged as a record extra. */
  predicate IsExtraKey(cmd: Command, key: string) {
    var p := Lookup(cmd.params, key);
    p.Some? && DnsrecordExtra in p.value.flags
  }

  /** The parent that one option key brings in, if any. */
  function Contribution(cmd: Command, key: string, skipExtra: bool): Option<Param>
  {
    var rrparam := GetRRParamFromPart(cmd, key);
    if rrparam.None? then None
    else if skipExtra && IsExtraKey(cmd, key) then None
    else rrparam
  }

  function Names(ps: seq<Param>): seq<string>
  {
    seq(|ps|, i requires 0 <= i < |ps| => ps[i].name)
  }

  /** The parents yielded for the option keys `keys`: each contributed parent
      once, at the first key that contributes a parent of that name. */
  function Yielded(cmd: Command, keys: seq<string>, skipExtra: bool): seq<Param>
  {
    if keys == [] then []
    else
      var prev := Yielded(cmd, keys[..|keys| - 1], skipExtra);
      match Contribution(cmd, keys[|keys| - 1], skipExtra)
      case None => prev
      case Some(p) => if p.name in Names(prev) then prev else prev + [p]
  }

  /** Walks the option keys once, remembering the names already yielded. */
  method IterateRRParamsByParts(cmd: Command, kw: Options, skipExtra: bool)
    returns (yielded: seq<Param>)
    ensures yielded == Yielded(cmd, Keys(kw), skipExtra)
  {
    var processed: seq<string> := [];
    yielded := [];
    var i := 0;
    while i < |kw|
      invariant 0 <= i <= |kw|
      invariant yielded == Yielded(cmd, Keys(kw)[..i], skipExtra)
      invariant processed == Names(yielded)
    {
      var opt := kw[i].0;
      assert Keys(kw)[..i + 1][..i] == Keys(kw)[..i];
      var rrparam := GetRRParamFromPart(cmd, opt);
      if rrparam.Some? {
        var skip := false;
        if skipExtra {
          var own := Lookup(cmd.params, opt);
          skip := own.Some? && DnsrecordExtra in own.value.flags;
        }
        if !skip && rrparam.value.name !in processed {
          processed := processed + [rrparam.value.name];
          yielded := yielded + [rrparam.value];
        }
      }
      i := i + 1;
    }
    assert Keys(kw)[..|kw|] == Keys(kw);
  }
}

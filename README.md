# DNS record parameter helpers

This project models the helpers in `ipalib/dns.py` that the DNS plugins of the
identity-management framework use to work with the parameters of a DNS-record
command. There are four helpers:

- `get_record_rrtype` reads the resource-record type from a parameter name.
  `mxrecord` gives `MX`.
- `has_cli_options` checks that an invocation supplied at least one piece of
  record data, unless one of the keys setattr, addattr, delattr or rename is
  present. If neither holds, it raises an option error.
- `get_rrparam_from_part` resolves a record "part" or "extra" parameter to its
  parent record parameter. It follows the parameter's hint.
- `iterate_rrparams_by_parts` enumerates the parent record parameters that a set
  of options touches. Each parent is enumerated once, at its first option. Extras
  can optionally be skipped.

A command is modelled by the parameters it declares, in order, each with a name,
a set of flags and an optional hint. Options are an ordered sequence of
(key, value) pairs. This is the insertion order of the dictionary the helpers
iterate. An option value is truthy exactly when it is non-empty.

The files are:

- `dns.dfy` (module `Dns`): the data model, the pure helpers as functions, and
  the two looping helpers as methods. Each method is proved against a
  specification function: `HasCliOptionsSpec` and `Yielded`.
- `dns_properties.dfy` (module `DnsProperties`): the properties of those
  specification functions.
- `dns_examples.dfy` and `dns_walk_examples.dfy`: worked examples over a command
  declaring MX and A record parameters, their parts, an MX extra and a part with
  a dangling hint.

The pattern `([^_]+)record$` is modelled exactly as Python's `re.match` reads it.
The class `[^_]` accepts a newline. `$` also matches just before one final
newline, so `"mxrecord\n"` names the type `MX`.

## Model

| member | source | states |
|---|---|---|
| Dns.GetRecordRRType | ipalib/dns.py:29-34 | A type, when there is one, is non-empty, shorter than the name, free of underscores and free of lower-case letters. |
| Dns.Upper | ipalib/dns.py:34 | Upper-casing keeps the length and the underscore positions and leaves no lower-case letter. |
| DnsProperties.RecordPrefixMatchesPattern | ipalib/dns.py:30 | The computed capture is `g` exactly when the name is `g` (non-empty, no underscore) followed by "record", optionally followed by one newline. |
| DnsProperties.RRTypeOfPlainName | ipalib/dns.py:29-34 | For a name not ending in a newline: there is a type iff the name has no underscore, ends in "record" and is longer than it, and the type is the upper-cased rest. |
| DnsProperties.RRTypeOfNewlineTerminatedName | ipalib/dns.py:30-34 | The same for a name ending in "record" plus one newline, the newline being dropped. |
| Dns.Lookup | ipalib/dns.py:64 | Lookup by name returns a declared parameter of that name, and fails only when no parameter has that name. |
| Dns.LookupFindsNamed | ipalib/dns.py:64 | With unique names, every declared parameter is found by its own name. |
| Dns.ObjParamNames | ipalib/dns.py:44-46 | A name is listed iff some declared parameter of that name has a truthy record type or the record-part flag. |
| Dns.HasCliOptions | ipalib/dns.py:37-53 | The early-exit scan returns exactly the outcome of the check stated over all options. |
| DnsProperties.ModifierKeyPasses | ipalib/dns.py:38-40 | Any of setattr, addattr, delattr or rename among the keys makes the check pass, whatever the other options. |
| DnsProperties.HasCliOptionsFailsIff | ipalib/dns.py:42-53 | Without a modifier key, the check fails with the caller's message iff every option either has an empty value (when empty values are not allowed) or names no record or record-part parameter. It never fails with another message. |
| DnsProperties.AllowEmptyAttrsMonotonic | ipalib/dns.py:48 | Allowing empty values never turns a passing check into a failing one. |
| Dns.GetRRParamFromPart | ipalib/dns.py:56-76 | An unknown name gives None. A result is a declared parameter named by the hint of a declared part or extra parameter of that name, and it is what indexing the parameters by its own name gives. |
| DnsProperties.GetRRParamFromPartCases | ipalib/dns.py:63-76 | For a declared parameter, with unique names: not a part or extra gives None; no hint gives None; a hint naming nothing gives None; for a part or extra, a hint naming a declared parameter gives that parameter. |
| DnsProperties.SameNameSameParam | ipalib/dns.py:64 | With unique names, two declared parameters of the same name are the same parameter. |
| Dns.IterateRRParamsByParts | ipalib/dns.py:79-100 | The loop with its list of processed names yields exactly the enumeration defined over all keys. |
| DnsProperties.YieldedDistinct | ipalib/dns.py:89-100 | No two yielded parents share a name. |
| DnsProperties.YieldedSound | ipalib/dns.py:90-100 | Every yielded parent is declared and is the resolved parent of some key that is not a skipped extra. |
| DnsProperties.YieldedFromContributions | ipalib/dns.py:90-100 | Every yielded parent is what some key contributes. |
| DnsProperties.YieldedCoversNames | ipalib/dns.py:90-100 | Every name some key contributes is the name of a yielded parent. |
| DnsProperties.YieldedComplete | ipalib/dns.py:90-100 | The resolved parent of every key that is not a skipped extra is yielded. |
| DnsProperties.YieldedOrder | ipalib/dns.py:89-100 | Parents come out in the order of the first key that brings each one in. |
| DnsProperties.SkipExtraYieldsSubset | ipalib/dns.py:95-96 | Every parent yielded when extras are skipped is also yielded when they are not. |
| DnsProperties.YieldedSnocNew | ipalib/dns.py:98-100 | A key contributing a parent whose name is new appends that parent. |
| DnsProperties.YieldedSnocKnown | ipalib/dns.py:92-98 | A key contributing nothing, or a parent already yielded, changes nothing. |
| DnsExamples.RRTypeExamples | ipalib/dns.py:29-34 | mxrecord gives MX and arecord gives A. "record", names with underscores and the empty name give none. "mxrecord" plus a newline gives MX. |
| DnsExamples.EmptyValueCountsOnlyWhenAllowed | ipalib/dns.py:47-53 | An empty value for a record parameter fails the check unless empty values are allowed. |
| DnsExamples.ExtraAloneIsInsufficient | ipalib/dns.py:44-53 | An extra parameter alone fails the check, even with a non-empty value. |
| DnsExamples.PartsResolveToTheirRecord | ipalib/dns.py:63-76 | MX and A parts and the MX extra resolve to their record parameter. |
| DnsExamples.OthersResolveToNothing | ipalib/dns.py:63-76 | A dangling hint, a record parameter and an undeclared name resolve to nothing. |
| DnsExamples.ExtraKeyExamples | ipalib/dns.py:95 | Only the extra parameter is recognised as an extra key. |
| DnsExamples.ContributionExamples | ipalib/dns.py:91-96 | Each example key brings in its parent, except the extra when extras are skipped. |
| DnsWalkExamples.IterateExample | ipalib/dns.py:79-100 | Two MX parts followed by an A part yield MX once, then A. |
| DnsWalkExamples.IterateExampleOneKey | ipalib/dns.py:79-100 | One MX part yields MX. |
| DnsWalkExamples.IterateExampleTwoKeys | ipalib/dns.py:79-100 | Two MX parts yield MX once. |
| DnsWalkExamples.ExtraFirstOneKey | ipalib/dns.py:95-100 | The MX extra alone yields MX, or nothing when extras are skipped. |
| DnsWalkExamples.ExtraFirstTwoKeys | ipalib/dns.py:95-100 | The MX extra then an A part yield MX, A, or only A when extras are skipped. |
| DnsWalkExamples.SkipExtraReorders | ipalib/dns.py:95-100 | MX extra, A part, MX part: keeping extras yields MX, A; skipping them yields A, MX. So the skipping walk is not always a subsequence of the other. |

## Left out

- The regular-expression engine is not modelled in general. Only the one pattern at `ipalib/dns.py:30` is modelled, as an explicit string check.
- Dns.Upper: upper-cases ASCII letters only. Python's `str.upper` also maps non-ASCII letters and can change the length (for example "ß" becomes "SS").
- The unused constant `record_name_format` (`ipalib/dns.py:26`) has no behaviour and is not modelled.
- Option values are modelled as strings that are truthy iff non-empty. Other Python value types (numbers, lists, None) are not modelled.
- `errors.OptionError` is modelled as the `OptionError` outcome that carries the caller's message. The exception class and its propagation are not modelled.
- The command's parameter namespace is modelled as one ordered sequence. Iterating it (`cmd.params()`) and indexing it by name (`cmd.params[...]`) read the same sequence.
- A parameter without a `hint` attribute is modelled as a hint of None. Both this and the `AttributeError` path return None.
- A `hint` attribute that exists but holds None is also modelled as resolving to nothing. What indexing the parameter namespace by None does is decided by the framework's namespace class, which is not part of this model; the model assumes it fails like a missing name.
- Dns.IterateRRParamsByParts: returns the whole yielded sequence at once. The generator's laziness, and a caller stopping early, are not modelled. Every prefix the caller consumes is a prefix of this sequence.
- DnsProperties.SkipExtraYieldsSubset: states set inclusion, not subsequence. Skipping extras can reorder the parents, as `DnsWalkExamples.SkipExtraReorders` shows, so the stronger order-preserving statement does not hold.
- Dictionaries with duplicate keys cannot arise in the source. Options are modelled as a sequence and are not required to have distinct keys. Every stated property holds either way.

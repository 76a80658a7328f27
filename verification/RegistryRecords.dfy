/** Registry records and their bindings (RegistryBinding and RegistryRecord in shadowscan/registries.py). */
module RegistryRecords {
  import opened RegistryEntries
  import opened Text

  datatype Status = ApprovedStatus | Registered | Pending | Draft | Rejected | Deprecated | Blocked | UnknownStatus
  datatype Mode = Auto | Manual | NoMode | UnknownMode

  datatype Binding = Binding(
    resource: string, provider: Option<string>, account: Option<string>, region: Option<string>, inScope: bool)

  datatype Record = Record(
    registry: string, registryId: string, recordId: string, status: Status, mode: Mode, bindings: seq<Binding>,
    publisher: Option<string>, listingComplete: bool)

  type Key = (string, string)

  const REDACTED := "[REDACTED]"

  predicate Contains(s: string, part: string) {
    part <= s || (s != "" && Contains(s[1..], part))
  }

  /** An exact identity: nonempty, unpadded and unredacted. */
  predicate Usable(s: string) {
    s != "" && Strip(s) == s && !Contains(s, REDACTED)
  }

  predicate UsableOption(s: Option<string>) {
    s.None? || Usable(s.value)
  }

  predicate UsableBinding(b: Binding) {
    Usable(b.resource) && UsableOption(b.provider) && UsableOption(b.account) && UsableOption(b.region)
  }

  predicate Agrees(wanted: Option<string>, actual: Option<string>) {
    wanted.None? || actual == wanted
  }

  // A field that the binding leaves open matches anything; nothing is compared by pattern.
  predicate BindingMatches(b: Binding, f: Finding) {
    f.resource == b.resource && Agrees(b.provider, f.provider) && Agrees(b.account, f.account) && Agrees(b.region, f.region)
  }

  function KeyOf(r: Record): Key {
    (r.registry, r.registryId)
  }
}

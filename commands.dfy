/**
 * The command records the store builds: the record it creates from an input
 * and the shallow merge `{ ...existing, ...patch }` it applies on update.
 */
module Commands {
  import opened Schema

  /**
   * The command stored under `id` for `input`: name, description and
   * response are copied, `enabled` is `input.enabled ?? true`, and the owning
   * bot id is not copied.
   */
  function NewCommand(id: nat, input: CommandInput): (c: Command)
    ensures c.id == id
    ensures c.enabled <==> input.enabled != Some(false)
    ensures c.name == input.name && c.description == input.description && c.response == input.response
    ensures c.botSettingsId.None?
  {
    Command(id, None, input.name, input.description, Pick(input.enabled, true), input.response)
  }

  /** The patch that supplies no field. */
  function NoChange(): CommandPatch
  {
    CommandPatch(None, None, None, None, None)
  }

  /** The value of one field after a spread: the supplied value, or the current one. */
  function Pick<T>(supplied: Option<T>, current: T): T
  {
    match supplied
    case Some(v) => v
    case None => current
  }

  /** `{ ...c, ...p }`: supplied fields override, the others and the id stay. */
  function Merge(c: Command, p: CommandPatch): (m: Command)
    ensures m.id == c.id
    ensures p.name.Some? ==> m.name == p.name.value
    ensures p.name.None? ==> m.name == c.name
    ensures p.description.Some? ==> m.description == p.description.value
    ensures p.description.None? ==> m.description == c.description
    ensures p.enabled.Some? ==> m.enabled == p.enabled.value
    ensures p.enabled.None? ==> m.enabled == c.enabled
    ensures p.response.Some? ==> m.response == p.response.value
    ensures p.response.None? ==> m.response == c.response
    ensures p.botSettingsId.Some? ==> m.botSettingsId == p.botSettingsId
    ensures p.botSettingsId.None? ==> m.botSettingsId == c.botSettingsId
  {
    Command(
      c.id,
      if p.botSettingsId.Some? then p.botSettingsId else c.botSettingsId,
      Pick(p.name, c.name),
      Pick(p.description, c.description),
      Pick(p.enabled, c.enabled),
      Pick(p.response, c.response))
  }

  /** `{ ...p, ...q }`: the patch that applies `p` and then `q`. */
  function Combine(p: CommandPatch, q: CommandPatch): CommandPatch
  {
    CommandPatch(
      if q.botSettingsId.Some? then q.botSettingsId else p.botSettingsId,
      if q.name.Some? then q.name else p.name,
      if q.description.Some? then q.description else p.description,
      if q.enabled.Some? then q.enabled else p.enabled,
      if q.response.Some? then q.response else p.response)
  }

  /** An empty patch leaves the command as it was. */
  lemma MergeNoChange(c: Command)
    ensures Merge(c, NoChange()) == c
  {
  }

  /** Applying the same patch twice is the same as applying it once. */
  lemma MergeIdempotent(c: Command, p: CommandPatch)
    ensures Merge(Merge(c, p), p) == Merge(c, p)
  {
  }

  /** Two successive updates are one update with the combined patch. */
  lemma MergeCombine(c: Command, p: CommandPatch, q: CommandPatch)
    ensures Merge(Merge(c, p), q) == Merge(c, Combine(p, q))
  {
  }
}

/**
 * Record shapes the in-memory store works with: the rows of the bot-settings,
 * commands and analytics tables, and the inputs the store is called with.
 */
module Schema {

  datatype Option<+T> = None | Some(value: T)

  /** A value, or the message of the error the store throws. */
  datatype Result<+T> = Success(value: T) | Failure(message: string)

  /** Settings as submitted: every column of the bot-settings table except `id`. */
  datatype BotSettingsInput = BotSettingsInput(
    userId: int, token: string, prefix: string, name: string, status: string)

  /** A stored bot-settings row. */
  datatype BotSettings = BotSettings(
    id: nat, userId: int, token: string, prefix: string, name: string, status: string)

  /** A command as submitted for creation; `enabled` may be omitted. */
  datatype CommandInput = CommandInput(
    botSettingsId: int, name: string, description: string, enabled: Option<bool>, response: string)

  /** A partial command: only the fields that are `Some` were supplied. */
  datatype CommandPatch = CommandPatch(
    botSettingsId: Option<int>, name: Option<string>, description: Option<string>,
    enabled: Option<bool>, response: Option<string>)

  /**
   * A stored command. The store does not copy the owning bot's id when it
   * creates a command, so `botSettingsId` is absent until a patch supplies it.
   */
  datatype Command = Command(
    id: nat, botSettingsId: Option<int>, name: string, description: string,
    enabled: bool, response: string)

  /** A stored analytics row: per command name, a call count and a rounded mean latency. */
  datatype Analytics = Analytics(
    id: nat, commandName: string, usageCount: nat, avgResponseTime: nat)
}

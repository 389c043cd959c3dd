/**
 * The core-system configuration (src/plugins/core_system/config.rs): per
 * priority a name, a colour and a reminder template, and how many days an
 * expired memo is kept.
 */
module CoreConfig {
  import opened Wrappers
  import Text

  /** The placeholder a reminder template's content goes into. */
  const PLACEHOLDER: string := "{content}"

  datatype PriorityConfig = PriorityConfig(name: string, color: string, defaultReminderMessage: string)
  datatype MemoConfig = MemoConfig(priorities: map<int, PriorityConfig>, expirationDays: nat)
  datatype CoreSystemConfig = CoreSystemConfig(memos: MemoConfig)

  /**
   * The text of a memo's primary reminder (src/plugins/core_system/mod.rs):
   * the template of its priority, Normal when none is given, with every
   * placeholder replaced by the content; the bare content when the priority
   * has no entry.
   */
  function ReminderText(config: CoreSystemConfig, priority: Option<int>, content: string): string
  {
    var p := priority.GetOr(1);
    if p in config.memos.priorities then
      Text.ReplaceAll(config.memos.priorities[p].defaultReminderMessage, PLACEHOLDER, content)
    else content
  }

  /** The template of priority `p` is `prefix + "{content}" + suffix`, with no `{` outside the placeholder. */
  predicate TemplateIs(config: CoreSystemConfig, p: int, prefix: string, suffix: string)
  {
    p in config.memos.priorities &&
    config.memos.priorities[p].defaultReminderMessage == prefix + PLACEHOLDER + suffix &&
    '{' !in prefix && '{' !in suffix
  }

  /** Such a template renders as prefix + content + suffix, and it contains the placeholder. */
  lemma Renders(config: CoreSystemConfig, p: int, prefix: string, suffix: string, content: string)
    requires TemplateIs(config, p, prefix, suffix)
    ensures ReminderText(config, Some(p), content) == prefix + content + suffix
    ensures Text.Contains(config.memos.priorities[p].defaultReminderMessage, PLACEHOLDER)
  {
    var t := config.memos.priorities[p].defaultReminderMessage;
    Text.ReplaceAllFirst(prefix, PLACEHOLDER, content, suffix);
    Text.ReplaceAllAbsent(suffix, PLACEHOLDER, content);
    assert t[|prefix|..|prefix| + |PLACEHOLDER|] == PLACEHOLDER;
    assert Text.OccursAt(t, PLACEHOLDER, |prefix|);
    Text.ContainsIff(t, PLACEHOLDER);
  }

  /** A priority with no entry reminds with the bare content; no priority means Normal. */
  lemma Unconfigured(config: CoreSystemConfig, p: int, content: string)
    requires p !in config.memos.priorities
    ensures ReminderText(config, Some(p), content) == content
    ensures ReminderText(config, None, content) == ReminderText(config, Some(1), content)
  {
  }

  /**
   * `CoreSystemConfig::default()`: the priority table filled entry by entry,
   * and 30 days of retention. Each template holds the placeholder once.
   */
  method Default() returns (config: CoreSystemConfig)
    ensures config.memos.priorities.Keys == {0, 1, 2, 3}
    ensures config.memos.expirationDays == 30
    ensures config.memos.priorities[0].name == "Low" && config.memos.priorities[0].color == "gray"
    ensures config.memos.priorities[1].name == "Normal" && config.memos.priorities[1].color == "blue"
    ensures config.memos.priorities[2].name == "High" && config.memos.priorities[2].color == "orange"
    ensures config.memos.priorities[3].name == "Critical" && config.memos.priorities[3].color == "red"
    ensures TemplateIs(config, 0, "You have a low priority task pending: ", "")
    ensures TemplateIs(config, 1, "Reminder: ", "")
    ensures TemplateIs(config, 2, "Important! Don't forget: ", "")
    ensures TemplateIs(config, 3, "URGENT: ", " is due!")
  {
    var priorities: map<int, PriorityConfig> := map[];
    priorities := priorities[0 := PriorityConfig("Low", "gray", "You have a low priority task pending: {content}")];
    priorities := priorities[1 := PriorityConfig("Normal", "blue", "Reminder: {content}")];
    priorities := priorities[2 := PriorityConfig("High", "orange", "Important! Don't forget: {content}")];
    priorities := priorities[3 := PriorityConfig("Critical", "red", "URGENT: {content} is due!")];
    config := CoreSystemConfig(MemoConfig(priorities, 30));
    LowTemplate();
    NormalTemplate();
    HighTemplate();
    CriticalTemplate();
  }

  // The four default templates, each split around its placeholder.
  lemma LowTemplate()
    ensures "You have a low priority task pending: {content}" == "You have a low priority task pending: " + PLACEHOLDER + ""
    ensures '{' !in "You have a low priority task pending: "
  {
  }

  lemma NormalTemplate()
    ensures "Reminder: {content}" == "Reminder: " + PLACEHOLDER + ""
    ensures '{' !in "Reminder: "
  {
  }

  lemma HighTemplate()
    ensures "Important! Don't forget: {content}" == "Important! Don't forget: " + PLACEHOLDER + ""
    ensures '{' !in "Important! Don't forget: "
  {
  }

  lemma CriticalTemplate()
    ensures "URGENT: {content} is due!" == "URGENT: " + PLACEHOLDER + " is due!"
    ensures '{' !in "URGENT: " && '{' !in " is due!"
  {
  }

  /** With the default table: every template holds the placeholder, and the reminders read as follows. */
  lemma DefaultReminders(config: CoreSystemConfig, content: string, other: int)
    requires config.memos.priorities.Keys == {0, 1, 2, 3}
    requires TemplateIs(config, 0, "You have a low priority task pending: ", "")
    requires TemplateIs(config, 1, "Reminder: ", "")
    requires TemplateIs(config, 2, "Important! Don't forget: ", "")
    requires TemplateIs(config, 3, "URGENT: ", " is due!")
    requires !(0 <= other < 4)
    ensures forall p :: p in config.memos.priorities ==> Text.Contains(config.memos.priorities[p].defaultReminderMessage, PLACEHOLDER)
    ensures ReminderText(config, Some(0), content) == "You have a low priority task pending: " + content
    ensures ReminderText(config, None, content) == "Reminder: " + content
    ensures ReminderText(config, Some(2), content) == "Important! Don't forget: " + content
    ensures ReminderText(config, Some(3), content) == "URGENT: " + content + " is due!"
    ensures ReminderText(config, Some(other), content) == content
  {
    Renders(config, 0, "You have a low priority task pending: ", "", content);
    Renders(config, 1, "Reminder: ", "", content);
    Renders(config, 2, "Important! Don't forget: ", "", content);
    Renders(config, 3, "URGENT: ", " is due!", content);
    Unconfigured(config, other, content);
  }
}

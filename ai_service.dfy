/**
 * The fallback policy of `AIService.process_brain_dump`
 * (klara-backend/app/ai_service.py): when the prompt-model-parser chain raises, the
 * text becomes a single undecomposed task.  The chain itself (prompt, model call,
 * output parsing) is an opaque call that either yields a result or fails.
 */
module AIService {
  import opened Wrappers

  const MaxFallbackLength: nat := 100
  const Ellipsis := "..."
  const FallbackMinutes: nat := 15
  const FallbackReasoning := "Error occurred during processing"

  datatype Subtask = Subtask(description: string, order: nat, estimatedTimeMinutes: Option<nat>,
                             dueDate: Option<string>)

  datatype ProcessedTask = ProcessedTask(
    description: string, dueDate: Option<string>, estimatedTimeMinutes: nat,
    shouldDecompose: bool, reasoning: string, subtasks: seq<Subtask>)

  datatype ProcessedShoppingItem = ProcessedShoppingItem(description: string)

  datatype ProcessedCalendarEvent = ProcessedCalendarEvent(description: string, eventDate: string,
                                                           eventTime: Option<string>)

  /** The three lists one brain dump is split into. */
  datatype ProcessedBrainDump = ProcessedBrainDump(
    tasks: seq<ProcessedTask>, shoppingItems: seq<ProcessedShoppingItem>,
    calendarEvents: seq<ProcessedCalendarEvent>)

  /** A task that is not decomposed has no subtasks. */
  predicate UndecomposedHasNoSubtasks(t: ProcessedTask) {
    !t.shouldDecompose ==> t.subtasks == []
  }

  /** The first 100 characters of `text`, with "..." appended when anything was cut. */
  function FallbackDescription(text: string): (d: string)
    ensures |d| <= MaxFallbackLength + |Ellipsis|
    ensures |text| <= MaxFallbackLength ==> d == text
    ensures |text| > MaxFallbackLength ==>
      |d| == MaxFallbackLength + |Ellipsis| && d[..MaxFallbackLength] == text[..MaxFallbackLength]
      && d[MaxFallbackLength..] == Ellipsis
  {
    var kept := if |text| <= MaxFallbackLength then text else text[..MaxFallbackLength];
    kept + (if |text| > MaxFallbackLength then Ellipsis else "")
  }

  /** The result returned when the chain fails. */
  function Fallback(text: string): (r: ProcessedBrainDump)
    ensures |r.tasks| == 1 && r.shoppingItems == [] && r.calendarEvents == []
    ensures UndecomposedHasNoSubtasks(r.tasks[0])
    ensures r.tasks[0].description == FallbackDescription(text)
    ensures r.tasks[0].dueDate == None && r.tasks[0].estimatedTimeMinutes == 15
    ensures !r.tasks[0].shouldDecompose && r.tasks[0].subtasks == []
    ensures r.tasks[0].reasoning == "Error occurred during processing"
  {
    ProcessedBrainDump(
      [ProcessedTask(FallbackDescription(text), None, FallbackMinutes, false, FallbackReasoning, [])],
      [], [])
  }

  /**
   * `process_brain_dump(text)`: what the chain returns for the text and today's date,
   * or the fallback when the chain fails.  Never fails itself.
   */
  function ProcessBrainDump(chain: (string, string) -> Result<ProcessedBrainDump, string>,
                            text: string, today: string): (r: ProcessedBrainDump)
    ensures chain(text, today).Success? ==> r == chain(text, today).value
    ensures chain(text, today).Failure? ==> r == Fallback(text)
  {
    match chain(text, today)
    case Success(result) => result
    case Failure(_) => Fallback(text)
  }
}

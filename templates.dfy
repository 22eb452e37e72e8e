/** The constant tables of the call-checklist web application
    (your_project/app.py): the default task labels per (call type,
    checklist type) and the four-item objection sub-checklist. Every
    template entry starts not done, so only the labels are kept. */
module Templates {

  /** The six call types the home page offers. */
  const CallTypes: seq<string> := ["sales", "reengagement", "followup", "at-risk", "support", "introduction"]

  /** The two checklist types of the call sub-menu. */
  const ChecklistTypes: seq<string> := ["voicemail", "start call"]

  const Voicemail: seq<string> := ["Purpose", "Call to Action", "Timeframe"]

  const SalesStart: seq<string> := [
    "Rapport Question", "2nd Open Question", "Value Add Item", "Great Ask for Sale",
    "Objection", "Implement Sale Now or \"How & When\"", "Anything Else they want to Ask?",
    "Summarise Call", "Book Followup or Next Steps"]

  const IntroductionStart: seq<string> := [
    "Repport Question", "2nd Open Question", "Value Add Item",
    "Learn their Current Situation", "Learn their Desired Situation",
    "Identify their Gap (& Problem Solve or Connect to Us)", "Additional Support Required?",
    "Anything Else they want to Ask?", "Summarise Call", "Book Next Call or Followup Steps"]

  const FollowupStart: seq<string> := [
    "Rapport Question", "2nd Open Question", "Value Add Item", "Extra Support Required?",
    "Anything they want to Ask?", "Summarise Call", "Book Followup or Next Steps"]

  const AtRiskStart: seq<string> := [
    "Rapport Question", "2nd Open Question", "Uncover the Problem", "Problem Solve",
    "Objection", "Connect course to Motivation/Their Gap", "Great Ask for Sale",
    "Additional Support Required", "Summarise Call", "Book Followup or Next Steps"]

  const SupportStart: seq<string> := [
    "Rapport Question", "2nd Open Question", "Followup on Support Given Previously",
    "Value Add Item", "Objection", "Further Support Required?",
    "Anything Else they want to Ask?", "Summarise Call", "Book Followup or Next Steps"]

  /** `DEFAULT_OBJECTION_SUBTASKS` */
  const ObjectionSubtasks: seq<string> := [
    "Listen & Acknowledge", "Clarify & Question", "Address the Objection", "Confirm & Close"]

  /** `DEFAULT_TASKS.get((callType, checklistType), [])`: an exact,
      case-sensitive lookup of the pair; any pair not in the table gives
      no labels. */
  function DefaultTasks(callType: string, checklistType: string): seq<string> {
    if checklistType == "voicemail" then
      if callType in CallTypes then Voicemail else []
    else if checklistType == "start call" then
      match callType
      case "sales" => SalesStart
      case "reengagement" => SalesStart
      case "followup" => FollowupStart
      case "at-risk" => AtRiskStart
      case "support" => SupportStart
      case "introduction" => IntroductionStart
      case _ => []
    else []
  }

  /** The catalogue as the lookup sees it: every voicemail pair gives
      Purpose, Call to Action, Timeframe; every known start-call pair gives
      a non-empty list; any pair outside the twelve gives nothing. */
  lemma DefaultTasksCatalogue(callType: string, checklistType: string)
    ensures callType in CallTypes && checklistType == "voicemail" ==>
              DefaultTasks(callType, checklistType) == ["Purpose", "Call to Action", "Timeframe"]
    ensures callType in CallTypes && checklistType == "start call" ==>
              |DefaultTasks(callType, checklistType)| >= 7
    ensures callType !in CallTypes || checklistType !in ChecklistTypes ==>
              DefaultTasks(callType, checklistType) == []
  {
  }

  /** The sales and support start-call templates already hold an
      "Objection" label (fifth entry), and so does at-risk. */
  lemma StartTemplatesHoldObjection()
    ensures DefaultTasks("sales", "start call")[4] == "Objection"
    ensures DefaultTasks("support", "start call")[4] == "Objection"
    ensures DefaultTasks("at-risk", "start call")[4] == "Objection"
    ensures |DefaultTasks("sales", "start call")| == 9
  {
  }
}

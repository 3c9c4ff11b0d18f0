/** The survey shapes the client works with once the backend's answer has been adapted. */
module SurveyTypes {
  import opened Wrappers

  /** `SurveyOption`; `caption` is the option's `label`. */
  datatype SurveyOption = SurveyOption(id: string, caption: string, value: string, order: int)

  /** `SurveyQuestion`. */
  datatype SurveyQuestion = SurveyQuestion(
    id: string,
    statement: string,
    inputType: string,
    required: bool,
    order: int,
    options: Option<seq<SurveyOption>>,
    activationOptionId: Option<string>)
}

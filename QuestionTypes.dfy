/**
 * The question-type registry (the `value` package, whose code is not part of this model).
 * Its lookups are kept uninterpreted: a `Registry` carries them as functions, so every
 * property proved here holds whatever tags, statuses and visibility the registry defines.
 */
module QuestionTypes {
  import opened Wrappers

  /** The question kinds the normaliser's switch names, plus any other kind the registry knows. */
  datatype QuestionKind =
    | QuestionDate | QuestionTime | QuestionDateTime
    | QuestionDurationForward | QuestionDurationBackward
    | QuestionScale | QuestionQRCode | QuestionSelection | QuestionText
    | QuestionCount | QuestionNumber | QuestionPhoto
    | QuestionMultipleChoice | QuestionSingleChoice
    | QuestionButtonCount | QuestionButtonList | QuestionMessageBox | QuestionShowPic
    | QuestionButton | QuestionPlayVideo | QuestionQRCodeFront | QuestionChoiceToggle
    | QuestionSection | QuestionFormSection | QuestionFormSendImmediately
    | QuestionSignature | QuestionWeb | QuestionWebUser
    | QuestionSignUpPreSetValue1 | QuestionSignUpPreSetValue2 | QuestionSignUpPreSetValue3
    | QuestionDraggableList | QuestionSendMessage | QuestionSendNotification
    | QuestionCodeCounting | QuestionRandomizer | QuestionDocument | QuestionQRCodeGenerator
    | UnlistedKind(name: string)

  /** A question's lifecycle status. */
  datatype Status = Active | Inactive

  /** `value.QuestionForMobile`: whether a question is enabled on mobile devices. */
  datatype QuestionForMobile = QuestionForMobileEnabled | QuestionForMobileDisabled

  /**
   * The registry's lookups: `GetQuestionType`, `GetStatusFromString`,
   * `IsGeneralQuestionType` and `GetStringValue`.
   */
  datatype Registry = Registry(
    questionType: string -> Option<QuestionKind>,
    statusFromString: string -> Option<Status>,
    isGeneral: QuestionKind -> bool,
    stringValue: QuestionKind -> string)
}

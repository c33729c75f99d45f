/** The persisted rows the core reads and writes, and the joined row a form query returns. */
module Entities {
  import opened Wrappers
  import opened QuestionTypes

  /**
   * A row of `s_question`. `pk` is the auto-increment primary key (0 before the row is stored);
   * `questionId` is the unique external id that upserts are keyed on. Timestamps are opaque
   * instants, 0 meaning "not set".
   */
  datatype Question = Question(
    pk: nat,
    questionId: string,
    questionName: string,
    questionType: string,
    question: string,
    attributes: string,
    status: Status,
    questionSet: string,
    enableOnMobile: QuestionForMobile,
    questionUniqueId: Option<string>,
    createdAt: int,
    updatedAt: int)

  /** A row of `s_form`, as far as this core reads it. */
  datatype Form = Form(id: nat, name: string, password: string, note: string)

  /** A row of `s_form_question`: links a form to a question with a display order. */
  datatype FormQuestion = FormQuestion(formId: nat, questionId: string, order: int, answerRequired: bool)

  /** One row of the form query: the question's columns joined with its link's order and flag. */
  datatype FormQuestionItem = FormQuestionItem(
    questionId: string,
    questionName: string,
    questionType: string,
    attributes: string,
    status: Status,
    createdAt: int,
    updatedAt: int,
    order: int,
    answerRequired: bool,
    question: string,
    enableOnMobile: QuestionForMobile,
    questionUniqueId: Option<string>)
}

/** The resume form's state: the personal data, the education/work history,
    the qualifications, the answers to the self-PR and career questions and
    the texts generated from them. Every text field is a string; the photo
    is a data URL or absent. */
module FormData {
  import opened Base

  datatype HistoryEntry = HistoryEntry(year: string, month: string, desc: string, status: string)

  datatype QualificationEntry = QualificationEntry(year: string, month: string, desc: string)

  datatype Gender = Unspecified | Male | Female

  datatype ResumeFormData = ResumeFormData(
    photo: Option<string>,
    name: string,
    name_furigana: string,
    birth_date: string,
    gender: Gender,
    address_furigana: string,
    address_postal_code: string,
    address_main: string,
    phone: string,
    email: string,
    same_as_current_address: bool,
    contact_address_furigana: string,
    contact_address_postal_code: string,
    contact_address_main: string,
    contact_phone: string,
    contact_email: string,
    history: seq<HistoryEntry>,
    qualifications: seq<QualificationEntry>,
    q1_resume: string,
    q2_resume: string,
    q3_resume: string,
    q4_resume: string,
    q5_resume: string,
    generated_resume_pr: string,
    special_requests: string,
    q1_cv: string,
    q2_cv: string,
    q3_cv: string,
    q4_cv: string,
    q5_cv: string,
    generated_cv_summary: string,
    generated_cv_details: string,
    generated_cv_skills: string,
    generated_cv_pr: string,
    generated_cv_speciality: string)

  /** The two documents the studio produces: the Japanese resume and the career history. */
  datatype DocumentType = Resume | Cv
}

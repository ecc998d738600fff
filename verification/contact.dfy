/**
 * The records of the pipeline and the field merger: the user's overrides are
 * reconciled with the contact details extracted from the résumé, and the
 * merged record must name the sender and an e-mail address before the
 * cover letter may be generated.
 *
 * Optional or missing text fields are represented by the empty string: the
 * handler only ever tests them for truthiness, where `undefined` and `""` agree.
 */
module Contact {
  import opened Wrappers

  /** `ExtractedInfo`: the contact details, as extracted or as resolved. */
  datatype ContactInfo = ContactInfo(fullName: string, email: string, phone: string, address: string)

  /** The optional `fullName`, `email` and `address` of the request payload. */
  datatype Overrides = Overrides(fullName: string, email: string, address: string)

  /** `GeneratedContent`: what the second model call returns. */
  datatype LetterBody = LetterBody(
    companyName: string, hiringManagerName: string,
    paragraph1: string, paragraph2: string, paragraph3: string)

  const INCOMPLETE_CONTACT: string :=
    "Could not automatically extract Name and Email from the CV. Please fill in the optional fields."

  /** JavaScript's `a || b` on strings: `a` unless it is empty. */
  function Or(a: string, b: string): string {
    if a != "" then a else b
  }

  /** The resolved contact record: a non-empty override wins, the phone is always the extracted one. */
  function Merge(o: Overrides, extracted: ContactInfo): (r: ContactInfo)
    ensures o.fullName != "" ==> r.fullName == o.fullName
    ensures o.fullName == "" ==> r.fullName == extracted.fullName
    ensures o.email != "" ==> r.email == o.email
    ensures o.email == "" ==> r.email == extracted.email
    ensures o.address != "" ==> r.address == o.address
    ensures o.address == "" ==> r.address == extracted.address
    ensures r.phone == extracted.phone
  {
    ContactInfo(
      fullName := Or(o.fullName, extracted.fullName),
      email := Or(o.email, extracted.email),
      phone := extracted.phone,
      address := Or(o.address, extracted.address))
  }

  /** The validation gate: the merged record, or the rejection when it lacks a name or an e-mail address. */
  function Gate(o: Overrides, extracted: ContactInfo): (r: Result<ContactInfo, string>)
    ensures r.Success? <==> (o.fullName != "" || extracted.fullName != "") && (o.email != "" || extracted.email != "")
    ensures r.Success? ==> r.value == Merge(o, extracted) && r.value.fullName != "" && r.value.email != ""
    ensures r.Failure? ==> r.error == INCOMPLETE_CONTACT
  {
    var info := Merge(o, extracted);
    if info.fullName == "" || info.email == "" then Failure(INCOMPLETE_CONTACT) else Success(info)
  }
}

/**
 * The shapes of the request data the handlers read: form fields, query
 * parameters and update patches, together with JavaScript truthiness for them.
 */
module RequestData {
  import opened Wrappers

  /** A request field as the handlers see it: absent (`undefined`) or a string. */
  type Param = Option<string>

  /** JavaScript truthiness of a request field: present and not the empty string. */
  predicate Truthy(p: Param) {
    p.Some? && p.value != ""
  }

  /** The uploaded `photo` file of a multipart request. */
  datatype PhotoFile = PhotoFile(mimetype: string, tempFilePath: string)

  /** The body of `POST /register`: multipart text fields plus the optional photo file. */
  datatype RegisterForm = RegisterForm(
    userType: Param,
    name: Param,
    email: Param,
    mobile: Param,
    password: Param,
    skills: Param,
    experience: Param,
    availability: Param,
    photo: Option<PhotoFile>)

  /** The query string of `GET /mentor` and `GET /mentee`. */
  datatype Query = Query(id: Param, skill: Param, name: Param, email: Param)

  /**
   * The body of `PUT /user/:id`: a partial document whose present fields
   * overwrite the stored ones. The document id itself cannot be patched.
   */
  datatype Patch = Patch(
    name: Param,
    email: Param,
    mobile: Param,
    password: Param,
    skills: Param,
    userType: Param,
    experience: Param,
    availability: Param,
    photo: Param)
}

/** Shared vocabulary of the blogging backend model: optional values,
    identifiers, HTTP status codes, and the collaborators whose code is not
    modelled (slugify, str.title, password hashing, e-mail normalisation and
    syntax checking), which every operation that needs them receives as the
    fields of an `Env`. */
module Base {

  datatype Option<+T> = None | Some(value: T) {
    function GetOr(default: T): T {
      match this
      case Some(v) => v
      case None => default
    }
  }

  /** Primary keys of the tables. */
  type UserId = int
  type PostId = int

  /** The HTTP status codes the views answer with. */
  const OK := 200
  const CREATED := 201
  const NO_CONTENT := 204
  const BAD_REQUEST := 400
  const UNAUTHORIZED := 401
  const FORBIDDEN := 403
  const NOT_FOUND := 404
  const METHOD_NOT_ALLOWED := 405
  /** An exception that escapes a view (Django answers 500). */
  const SERVER_ERROR := 500

  /** Library functions treated as opaque: `django.utils.text.slugify`,
      Python's `str.title`, Django's `make_password`,
      `BaseUserManager.normalize_email`, and the e-mail syntax check of
      DRF's `EmailField`. */
  datatype Env = Env(
    slugify: string -> string,
    titleCase: string -> string,
    makePassword: string -> string,
    normalizeEmail: string -> string,
    isEmail: string -> bool)
}

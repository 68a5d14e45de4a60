/**
 * The two input validators of the server: the password policy checked
 * before sign-up, and the upload filter that decides which files reach a
 * handler as `req.file`.
 */
module Validation {
  import opened Wrappers

  const MinPasswordLength := 8

  /** The character class of the symbol test: ! @ # $ % ^ & * ( ) _ + { } [ ] : ; < > , . ? ~ \ / - */
  const PasswordSymbols: set<char> := {
    '!', '@', '#', '$', '%', '^', '&', '*', '(', ')', '_', '+', '{', '}',
    '[', ']', ':', ';', '<', '>', ',', '.', '?', '~', '\\', '/', '-'
  }

  predicate IsAsciiUpper(c: char) { 'A' <= c <= 'Z' }

  predicate IsPasswordSymbol(c: char) { c in PasswordSymbols }

  /** `/[...]/.test(p)` for a one-character class: some character of `p` is in the class. */
  function Matches(p: string, inClass: char -> bool): (found: bool)
    ensures found <==> exists i :: 0 <= i < |p| && inClass(p[i])
  {
    if p == [] then false
    else if inClass(p[0]) then true
    else
      var rest := Matches(p[1..], inClass);
      assert forall i :: 0 < i < |p| ==> p[i] == p[1..][i - 1];
      rest
  }

  /** isPasswordValid: long enough, with an upper-case ASCII letter and a symbol. */
  function IsPasswordValid(p: string): (ok: bool)
    ensures ok <==>
      && |p| >= MinPasswordLength
      && (exists i :: 0 <= i < |p| && IsAsciiUpper(p[i]))
      && (exists j :: 0 <= j < |p| && p[j] in PasswordSymbols)
  {
    if |p| < MinPasswordLength then false
    else if !Matches(p, IsAsciiUpper) then false
    else if !Matches(p, IsPasswordSymbol) then false
    else true
  }

  /** A seven-character password is refused; a long one with an upper-case letter and a symbol passes. */
  lemma PasswordExamples()
    ensures !IsPasswordValid("short1!")
    ensures IsPasswordValid("LongEnough1!")
    ensures !IsPasswordValid("longenough1!")
    ensures !IsPasswordValid("LongEnough12")
  {
    var good := "LongEnough1!";
    assert IsAsciiUpper(good[0]) && good[11] in PasswordSymbols;
    var lower := "longenough1!";
    assert forall i :: 0 <= i < |lower| ==> !IsAsciiUpper(lower[i]);
    var plain := "LongEnough12";
    assert forall j :: 0 <= j < |plain| ==> plain[j] !in PasswordSymbols;
  }

  const AcceptedMimeTypes: set<string> := {"image/png", "image/jpeg", "image/jpg"}

  const InvalidImageMessage := "File is not a valid image!"

  /** What the filter tells multer, and the message it leaves on the request. */
  datatype FilterDecision = FilterDecision(accept: bool, errorMessage: Option<string>)

  /** fileFilter: only PNG and JPEG images pass; any other type is refused with a message. */
  function FileFilter(mimetype: string): (d: FilterDecision)
    ensures d.accept <==> mimetype in AcceptedMimeTypes
    ensures d.accept ==> d.errorMessage == None
    ensures !d.accept ==> d.errorMessage == Some(InvalidImageMessage)
  {
    if mimetype == "image/png" || mimetype == "image/jpeg" || mimetype == "image/jpg" then
      FilterDecision(true, None)
    else
      FilterDecision(false, Some(InvalidImageMessage))
  }

  /**
   * `req.file` as a handler sees it, given the content type of the uploaded
   * part (None when the request carries no `image` part): multer keeps the
   * file only when the filter accepts it.
   */
  function ReceivedFile(upload: Option<string>): (file: Option<string>)
    ensures file.Some? <==> upload.Some? && upload.value in AcceptedMimeTypes
    ensures file.Some? ==> file == upload
  {
    match upload
    case None => None
    case Some(mimetype) => if FileFilter(mimetype).accept then Some(mimetype) else None
  }
}

/**
 * `PKAccountSettings` (PutIOKit/Models/PKAccountSettings.h): the same settings
 * object as in PutKit, except that the code list is mandatory, so posting it
 * always replaces every server-side field.
 */
module PKAccountSettings {
  import opened Wrappers

  type LanguageCode = string

  const MaxSubtitleLanguages := 2

  datatype SettingsError = TooManySubtitleLanguages(count: nat)

  /**
   * The settings object. The header declares the default language non-null,
   * but an empty code list has no first element, so here it is optional
   * (see `DeclaredDefaultCodeUnmet`).
   */
  datatype AccountSettings = AccountSettings(
    defaultDownloadFolderIdentifier: int,
    invisible: bool,
    defaultSubtitleLanguageCode: Option<LanguageCode>,
    subtitleLanguageCodes: seq<LanguageCode>)

  datatype ServerSettings = ServerSettings(
    defaultDownloadFolderIdentifier: int,
    invisible: bool,
    subtitleLanguageCodes: seq<LanguageCode>)

  /** `initWithDefaultDownloadFolderIdentifier:isInvisible:subtitleLanguageCodes:` */
  function Init(folder: int, invisible: bool, codes: seq<LanguageCode>): (r: Result<AccountSettings, SettingsError>)
    ensures r.Failure? <==> |codes| > MaxSubtitleLanguages
    ensures r.Failure? ==> r.error == TooManySubtitleLanguages(|codes|)
    ensures r.Success? ==> r.value.defaultDownloadFolderIdentifier == folder &&
                           r.value.invisible == invisible &&
                           r.value.subtitleLanguageCodes == codes
    ensures r.Success? ==> (r.value.defaultSubtitleLanguageCode.Some? <==> codes != [])
    ensures r.Success? && codes != [] ==> r.value.defaultSubtitleLanguageCode == Some(codes[0])
  {
    if |codes| > MaxSubtitleLanguages then Failure(TooManySubtitleLanguages(|codes|))
    else Success(AccountSettings(folder, invisible, if codes == [] then None else Some(codes[0]), codes))
  }

  /** Posting a settings object: every field replaces the server's. */
  function Apply(server: ServerSettings, update: AccountSettings): (r: ServerSettings)
    ensures r.subtitleLanguageCodes == update.subtitleLanguageCodes
    ensures r.defaultDownloadFolderIdentifier == update.defaultDownloadFolderIdentifier
    ensures r.invisible == update.invisible
  {
    ServerSettings(update.defaultDownloadFolderIdentifier, update.invisible, update.subtitleLanguageCodes)
  }

  /** There is no "keep unchanged": the server's previous settings do not matter. */
  lemma ApplyForgetsServer(a: ServerSettings, b: ServerSettings, update: AccountSettings)
    ensures Apply(a, update) == Apply(b, update)
  {
  }

  /** Posting the same settings twice leaves the server as posting them once. */
  lemma ApplyIdempotent(server: ServerSettings, update: AccountSettings)
    ensures Apply(Apply(server, update), update) == Apply(server, update)
  {
  }

  /** The header's promise for `defaultSubtitleLanguageCode`: non-null. */
  predicate HasDeclaredDefaultCode(s: AccountSettings)
  {
    s.defaultSubtitleLanguageCode.Some?
  }

  /**
   * As written, the initialiser accepts an empty code list, and then no first
   * code exists to serve as the non-null default language.
   */
  lemma DeclaredDefaultCodeUnmet(folder: int, invisible: bool)
    ensures Init(folder, invisible, []).Success?
    ensures !HasDeclaredDefaultCode(Init(folder, invisible, []).value)
  {
  }

  /** With the default language nullable, it is present exactly when the code list is non-empty. */
  lemma DefaultCodePresentIffCodes(folder: int, invisible: bool, codes: seq<LanguageCode>)
    requires Init(folder, invisible, codes).Success?
    ensures HasDeclaredDefaultCode(Init(folder, invisible, codes).value) <==> codes != []
  {
  }
}

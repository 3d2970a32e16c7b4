/**
 * `PIOAccountSettings` (PutKit/Models/PIOAccountSettings.h): the settings
 * object posted to the server, its initialisers, and what posting it does to
 * the server-side settings.
 */
module PIOAccountSettings {
  import opened Wrappers

  /** An `ISO639-2` language code. */
  type LanguageCode = string

  const MaxSubtitleLanguages := 2

  /** The exception raised for more than two language codes. */
  datatype SettingsError = TooManySubtitleLanguages(count: nat)

  /**
   * The settings object. The folder id may be `NaN` and the invisibility may be
   * `NSNull` when read back, and an initialiser may omit either, so both are
   * optional; a nil code list means "do not change the server-side list".
   */
  datatype AccountSettings = AccountSettings(
    defaultDownloadFolderIdentifier: Option<int>,
    invisible: Option<bool>,
    defaultSubtitleLanguageCode: Option<LanguageCode>,
    subtitleLanguageCodes: Option<seq<LanguageCode>>)

  /**
   * The settings the server holds; its default language is its first code.
   * The folder id and the invisibility may be unset there (reported back as
   * `NaN` and `NSNull`).
   */
  datatype ServerSettings = ServerSettings(
    defaultDownloadFolderIdentifier: Option<int>,
    invisible: Option<bool>,
    subtitleLanguageCodes: seq<LanguageCode>)

  function FirstCode(codes: seq<LanguageCode>): Option<LanguageCode>
  {
    if codes == [] then None else Some(codes[0])
  }

  /** The shared validation of every initialiser. */
  function Make(folder: Option<int>, codes: Option<seq<LanguageCode>>, invisible: Option<bool>): (r: Result<AccountSettings, SettingsError>)
    ensures r.Failure? <==> codes.Some? && |codes.value| > MaxSubtitleLanguages
    ensures r.Failure? ==> r.error == TooManySubtitleLanguages(|codes.value|)
    ensures r.Success? ==> r.value.defaultDownloadFolderIdentifier == folder &&
                           r.value.invisible == invisible &&
                           r.value.subtitleLanguageCodes == codes
    ensures r.Success? ==> (r.value.defaultSubtitleLanguageCode.Some? <==> codes.Some? && codes.value != [])
    ensures r.Success? && codes.Some? && codes.value != [] ==> r.value.defaultSubtitleLanguageCode == Some(codes.value[0])
  {
    match codes
    case Some(cs) =>
      if |cs| > MaxSubtitleLanguages then Failure(TooManySubtitleLanguages(|cs|))
      else Success(AccountSettings(folder, invisible, FirstCode(cs), codes))
    case None => Success(AccountSettings(folder, invisible, None, None))
  }

  /** `initWithDefaultDownloadFolderIdentifier:subtitleLanguageCodes:isInvisible:` (the designated initialiser) */
  function InitWithFolderCodesInvisible(folder: int, codes: Option<seq<LanguageCode>>, invisible: bool): (r: Result<AccountSettings, SettingsError>)
    ensures r.Failure? <==> codes.Some? && |codes.value| > MaxSubtitleLanguages
    ensures r.Success? ==> r.value.defaultDownloadFolderIdentifier == Some(folder) &&
                           r.value.invisible == Some(invisible) &&
                           r.value.subtitleLanguageCodes == codes
    ensures r.Success? && codes.Some? && codes.value != [] ==> r.value.defaultSubtitleLanguageCode == Some(codes.value[0])
  {
    Make(Some(folder), codes, Some(invisible))
  }

  /** `initWithDefaultDownloadFolderIdentifier:isInvisible:` */
  function InitWithFolderInvisible(folder: int, invisible: bool): (s: AccountSettings)
    ensures s.defaultDownloadFolderIdentifier == Some(folder) && s.invisible == Some(invisible)
    ensures s.subtitleLanguageCodes.None? && s.defaultSubtitleLanguageCode.None?
  {
    Make(Some(folder), None, Some(invisible)).value
  }

  /** `initWithDefaultDownloadFolderIdentifier:subtitleLanguageCodes:` */
  function InitWithFolderCodes(folder: int, codes: Option<seq<LanguageCode>>): (r: Result<AccountSettings, SettingsError>)
    ensures r.Failure? <==> codes.Some? && |codes.value| > MaxSubtitleLanguages
    ensures r.Success? ==> r.value.defaultDownloadFolderIdentifier == Some(folder) &&
                           r.value.invisible.None? &&
                           r.value.subtitleLanguageCodes == codes
    ensures r.Success? && codes.Some? && codes.value != [] ==> r.value.defaultSubtitleLanguageCode == Some(codes.value[0])
  {
    Make(Some(folder), codes, None)
  }

  /** `initWithSubtitleLanguageCodes:isInvisible:` */
  function InitWithCodesInvisible(codes: Option<seq<LanguageCode>>, invisible: bool): (r: Result<AccountSettings, SettingsError>)
    ensures r.Failure? <==> codes.Some? && |codes.value| > MaxSubtitleLanguages
    ensures r.Success? ==> r.value.defaultDownloadFolderIdentifier.None? &&
                           r.value.invisible == Some(invisible) &&
                           r.value.subtitleLanguageCodes == codes
    ensures r.Success? && codes.Some? && codes.value != [] ==> r.value.defaultSubtitleLanguageCode == Some(codes.value[0])
  {
    Make(None, codes, Some(invisible))
  }

  /** `initWithDefaultDownloadFolderIdentifier:` */
  function InitWithFolder(folder: int): (s: AccountSettings)
    ensures s.defaultDownloadFolderIdentifier == Some(folder) && s.invisible.None?
    ensures s.subtitleLanguageCodes.None? && s.defaultSubtitleLanguageCode.None?
  {
    Make(Some(folder), None, None).value
  }

  /** `initWithSubtitleLanguageCodes:` */
  function InitWithCodes(codes: Option<seq<LanguageCode>>): (r: Result<AccountSettings, SettingsError>)
    ensures r.Failure? <==> codes.Some? && |codes.value| > MaxSubtitleLanguages
    ensures r.Success? ==> r.value.defaultDownloadFolderIdentifier.None? &&
                           r.value.invisible.None? &&
                           r.value.subtitleLanguageCodes == codes
    ensures r.Success? && codes.Some? && codes.value != [] ==> r.value.defaultSubtitleLanguageCode == Some(codes.value[0])
  {
    Make(None, codes, None)
  }

  /** `initWithIsInvisible:` */
  function InitWithInvisible(invisible: bool): (s: AccountSettings)
    ensures s.defaultDownloadFolderIdentifier.None? && s.invisible == Some(invisible)
    ensures s.subtitleLanguageCodes.None? && s.defaultSubtitleLanguageCode.None?
  {
    Make(None, None, Some(invisible)).value
  }

  /** Keep-or-replace: an absent field keeps the server's value, a present one replaces it. */
  function Keep<T>(server: T, update: Option<T>): T
  {
    match update
    case None => server
    case Some(v) => v
  }

  /** Keep-or-replace for a field the server may hold unset. */
  function KeepUnset<T>(server: Option<T>, update: Option<T>): Option<T>
  {
    if update.Some? then update else server
  }

  /** Posting a settings object to the server. */
  function Apply(server: ServerSettings, update: AccountSettings): (r: ServerSettings)
    ensures update.subtitleLanguageCodes.None? ==> r.subtitleLanguageCodes == server.subtitleLanguageCodes
    ensures update.subtitleLanguageCodes.Some? ==> r.subtitleLanguageCodes == update.subtitleLanguageCodes.value
    ensures update.defaultDownloadFolderIdentifier.Some? ==>
              r.defaultDownloadFolderIdentifier == update.defaultDownloadFolderIdentifier
    ensures update.defaultDownloadFolderIdentifier.None? ==>
              r.defaultDownloadFolderIdentifier == server.defaultDownloadFolderIdentifier
    ensures update.invisible.Some? ==> r.invisible == update.invisible
    ensures update.invisible.None? ==> r.invisible == server.invisible
  {
    ServerSettings(
      KeepUnset(server.defaultDownloadFolderIdentifier, update.defaultDownloadFolderIdentifier),
      KeepUnset(server.invisible, update.invisible),
      Keep(server.subtitleLanguageCodes, update.subtitleLanguageCodes))
  }

  /**
   * What the server reports back: the code list is always present (possibly
   * empty) and the default language is its first entry; the folder id and the
   * invisibility are reported as held, unset ones as absent.
   */
  function ReadBack(server: ServerSettings): (s: AccountSettings)
    ensures s.subtitleLanguageCodes == Some(server.subtitleLanguageCodes)
    ensures s.defaultSubtitleLanguageCode.Some? <==> server.subtitleLanguageCodes != []
    ensures s.defaultSubtitleLanguageCode.Some? ==> s.defaultSubtitleLanguageCode.value == server.subtitleLanguageCodes[0]
    ensures s.defaultDownloadFolderIdentifier == server.defaultDownloadFolderIdentifier
    ensures s.invisible == server.invisible
  {
    AccountSettings(server.defaultDownloadFolderIdentifier, server.invisible,
                    FirstCode(server.subtitleLanguageCodes), Some(server.subtitleLanguageCodes))
  }

  /** Posting the same settings twice leaves the server as posting them once. */
  lemma ApplyIdempotent(server: ServerSettings, update: AccountSettings)
    ensures Apply(Apply(server, update), update) == Apply(server, update)
  {
  }

  /** A nil code list keeps the server's list and default language; an empty list clears both. */
  lemma NilKeepsEmptyClears(server: ServerSettings, folder: int, invisible: bool)
    ensures var kept := Apply(server, InitWithFolderCodesInvisible(folder, None, invisible).value);
      kept.subtitleLanguageCodes == server.subtitleLanguageCodes &&
      ReadBack(kept).defaultSubtitleLanguageCode == ReadBack(server).defaultSubtitleLanguageCode
    ensures var cleared := Apply(server, InitWithFolderCodesInvisible(folder, Some([]), invisible).value);
      cleared.subtitleLanguageCodes == [] && ReadBack(cleared).defaultSubtitleLanguageCode.None?
  {
  }

  /**
   * Reading back after posting a settings object built by any initialiser
   * returns every field the object sets, the default language included.
   */
  lemma ReadBackAfterApply(server: ServerSettings, update: AccountSettings)
    requires update.subtitleLanguageCodes.Some? ==> |update.subtitleLanguageCodes.value| <= MaxSubtitleLanguages
    requires update.defaultSubtitleLanguageCode ==
             (if update.subtitleLanguageCodes.Some? then FirstCode(update.subtitleLanguageCodes.value) else None)
    ensures var back := ReadBack(Apply(server, update));
      (update.defaultDownloadFolderIdentifier.Some? ==>
         back.defaultDownloadFolderIdentifier == update.defaultDownloadFolderIdentifier) &&
      (update.invisible.Some? ==> back.invisible == update.invisible) &&
      (update.subtitleLanguageCodes.Some? ==>
         back.subtitleLanguageCodes == update.subtitleLanguageCodes &&
         back.defaultSubtitleLanguageCode == update.defaultSubtitleLanguageCode)
  {
  }

  /** Every successful initialiser yields a settings object that `ReadBackAfterApply` covers. */
  lemma MadeSettingsAreConsistent(folder: Option<int>, codes: Option<seq<LanguageCode>>, invisible: Option<bool>)
    requires Make(folder, codes, invisible).Success?
    ensures var s := Make(folder, codes, invisible).value;
      (s.subtitleLanguageCodes.Some? ==> |s.subtitleLanguageCodes.value| <= MaxSubtitleLanguages) &&
      s.defaultSubtitleLanguageCode ==
        (if s.subtitleLanguageCodes.Some? then FirstCode(s.subtitleLanguageCodes.value) else None)
  {
  }
}

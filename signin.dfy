/** The sign-in screen: the choice of a second factor and the screen state
    that the sign-in, verification and MFA-screen button handlers update. */
module SignIn {
  import opened Text

  const TotpName: string := "totp"
  const PhoneName: string := "phone_code"
  const BackupName: string := "backup_code"

  const StatusComplete: string := "complete"
  const StatusNeedsSecondFactor: string := "needs_second_factor"

  const HomeRoute: string := "/(authenticated)/home"

  const ErrorTitle: string := "エラー"
  const SignInFailedMessage: string := "認証に失敗しました"
  const CodeRejectedMessage: string := "コードが正しくありません"
  const NoFactorTitle: string := "二段階認証が必要です"
  const NoFactorMessage: string :=
    "アカウントに二段階認証が設定されていません。Clerk ダッシュボードで認証アプリを設定してください。"

  /** The three second-factor methods the screen knows. */
  datatype Strategy = Totp | PhoneCode | BackupCode

  /** The strategy name sent to Clerk. */
  function Name(s: Strategy): string
  {
    match s
    case Totp => TotpName
    case PhoneCode => PhoneName
    case BackupCode => BackupName
  }

  /** One entry of `supportedSecondFactors`. */
  datatype Factor = Factor(strategy: string, phoneNumberId: Option<string>)

  /** What a Clerk sign-in call resolves to. */
  datatype SignInResult = SignInResult(
    status: string,
    createdSessionId: string,
    supportedSecondFactors: Option<seq<Factor>>)

  /** A thrown value: an `Error` with its message, or anything else. */
  datatype Thrown = ErrorObject(message: string) | NonError

  /** A foreign call that either resolves with a value or throws. */
  datatype ClerkCall<T> = Ok(value: T) | Throws(error: Thrown)

  datatype Alert = Alert(title: string, message: string)

  datatype Credentials = Credentials(identifier: string, password: string)

  /** The arguments of `signIn.attemptSecondFactor`. */
  datatype Attempt = Attempt(strategy: string, code: string)

  /** `err instanceof Error ? err.message : fallback`. */
  function MessageOf(e: Thrown, fallback: string): string
  {
    match e
    case ErrorObject(m) => m
    case NonError => fallback
  }

  /** The alert of a `catch` block. */
  function ErrorAlert(e: Thrown, fallback: string): Alert
  {
    Alert(ErrorTitle, MessageOf(e, fallback))
  }

  /** ---------- Choosing a factor ---------- */

  ghost predicate HasStrategy(factors: seq<Factor>, name: string)
  {
    exists k :: 0 <= k < |factors| && factors[k].strategy == name
  }

  /** `factors[k]` is the first factor with that strategy. */
  ghost predicate FirstWith(factors: seq<Factor>, name: string, k: int)
  {
    && 0 <= k < |factors|
    && factors[k].strategy == name
    && forall j :: 0 <= j < k ==> factors[j].strategy != name
  }

  /** `factors.find((f) => f.strategy === name)`. */
  function Find(factors: seq<Factor>, name: string): (r: Option<Factor>)
    ensures r.Some? <==> HasStrategy(factors, name)
    ensures r.Some? ==> exists k :: FirstWith(factors, name, k) && factors[k] == r.value
    decreases |factors|
  {
    if factors == [] then None
    else if factors[0].strategy == name then
      assert FirstWith(factors, name, 0);
      Some(factors[0])
    else
      var r := Find(factors[1..], name);
      FindShift(factors, name, r);
      r
  }

  /** What is true of the tail is true of the list when the head does not match. */
  lemma FindShift(factors: seq<Factor>, name: string, r: Option<Factor>)
    requires factors != [] && factors[0].strategy != name
    requires r.Some? <==> HasStrategy(factors[1..], name)
    requires r.Some? ==> exists k :: FirstWith(factors[1..], name, k) && factors[1..][k] == r.value
    ensures r.Some? <==> HasStrategy(factors, name)
    ensures r.Some? ==> exists k :: FirstWith(factors, name, k) && factors[k] == r.value
  {
    if HasStrategy(factors, name) {
      var k :| 0 <= k < |factors| && factors[k].strategy == name;
      assert factors[1..][k - 1] == factors[k];
    }
    if r.Some? {
      var k :| FirstWith(factors[1..], name, k) && factors[1..][k] == r.value;
      assert FirstWith(factors, name, k + 1);
    }
  }

  /** The screen `handleSecondFactor` opens, by priority totp, then
      phone_code, then backup_code; `None` when no factor is recognised. A list
      with only backup_code factors opens the backup-code screen. */
  function ChooseStrategy(factors: seq<Factor>): (r: Option<Strategy>)
    ensures r == Some(Totp) <==> HasStrategy(factors, TotpName)
    ensures r == Some(PhoneCode) <==> !HasStrategy(factors, TotpName) && HasStrategy(factors, PhoneName)
    ensures r == Some(BackupCode) <==>
      !HasStrategy(factors, TotpName) && !HasStrategy(factors, PhoneName) && HasStrategy(factors, BackupName)
    ensures r == None <==>
      !HasStrategy(factors, TotpName) && !HasStrategy(factors, PhoneName) && !HasStrategy(factors, BackupName)
  {
    if Find(factors, TotpName).Some? then Some(Totp)
    else if Find(factors, PhoneName).Some? then Some(PhoneCode)
    else if Find(factors, BackupName).Some? then Some(BackupCode)
    else None
  }

  /** The argument of `preparePhone`: `phone.phoneNumberId ?? ''`. */
  function PhoneArgument(f: Factor): string
  {
    match f.phoneNumberId
    case Some(id) => id
    case None => ""
  }

  /** A factor list holding only backup codes still opens the backup-code
      screen, as the comment above `handleSecondFactor` records. */
  lemma BackupOnlyOpensBackupScreen(factors: seq<Factor>)
    requires factors != []
    requires forall k :: 0 <= k < |factors| ==> factors[k].strategy == BackupName
    ensures ChooseStrategy(factors) == Some(BackupCode)
  {
    assert factors[0].strategy == BackupName;
    assert !HasStrategy(factors, TotpName) by {
      forall k | 0 <= k < |factors| ensures factors[k].strategy != TotpName {
        assert factors[k].strategy == BackupName;
      }
    }
    assert !HasStrategy(factors, PhoneName) by {
      forall k | 0 <= k < |factors| ensures factors[k].strategy != PhoneName {
        assert factors[k].strategy == BackupName;
      }
    }
  }

  /** ---------- The screen ---------- */

  class SignInScreen {
    /** `isLoaded` and whether `signIn` is present, from `useSignIn`. */
    var isLoaded: bool
    var hasSignIn: bool
    var email: string
    var password: string
    var loading: bool
    var pendingMFA: bool
    var mfaCode: string
    var mfaStrategy: Strategy
    var hasBackupCode: bool
    /** The alerts shown, in order. */
    var alerts: seq<Alert>
    /** The calls made to Clerk and the router, in order. */
    var creates: seq<Credentials>
    var attempts: seq<Attempt>
    var prepared: seq<string>
    var activations: seq<string>
    var routes: seq<string>

    constructor (isLoaded: bool, hasSignIn: bool)
      ensures this.isLoaded == isLoaded && this.hasSignIn == hasSignIn
      ensures email == "" && password == "" && mfaCode == ""
      ensures !loading && !pendingMFA && mfaStrategy == Totp && !hasBackupCode
      ensures alerts == [] && creates == [] && attempts == [] && prepared == []
      ensures activations == [] && routes == []
    {
      this.isLoaded := isLoaded;
      this.hasSignIn := hasSignIn;
      email := "";
      password := "";
      loading := false;
      pendingMFA := false;
      mfaCode := "";
      mfaStrategy := Totp;
      hasBackupCode := false;
      alerts := [];
      creates := [];
      attempts := [];
      prepared := [];
      activations := [];
      routes := [];
    }

    /** The text inputs' `onChangeText`. */
    method SetEmail(text: string)
      modifies this`email
      ensures email == text
    {
      email := text;
    }

    method SetPassword(text: string)
      modifies this`password
      ensures password == text
    {
      password := text;
    }

    method SetMfaCode(text: string)
      modifies this`mfaCode
      ensures mfaCode == text
    {
      mfaCode := text;
    }

    /** The sign-in button is disabled without both inputs or while loading. */
    predicate SignInEnabled()
      reads this
    {
      email != "" && password != "" && !loading
    }

    /** The verify button is disabled without a code or while loading. */
    predicate VerifyEnabled()
      reads this
    {
      mfaCode != "" && !loading
    }

    /** The link to the backup code is shown only when a backup code exists
        and is not already the strategy. */
    predicate BackupSwitchOffered()
      reads this
    {
      pendingMFA && hasBackupCode && mfaStrategy != BackupCode
    }

    /** `handleSecondFactor(factors, preparePhone)`: returns what
        `preparePhone` threw, which reaches the caller's `catch`. */
    method HandleSecondFactor(factors: seq<Factor>, preparePhone: ClerkCall<()>)
      returns (thrown: Option<Thrown>)
      modifies this`alerts, this`hasBackupCode, this`mfaStrategy, this`pendingMFA, this`prepared
      ensures ChooseStrategy(factors).None? ==>
        && alerts == old(alerts) + [Alert(NoFactorTitle, NoFactorMessage)]
        && hasBackupCode == old(hasBackupCode)
        && prepared == old(prepared)
      ensures ChooseStrategy(factors).Some? ==>
        alerts == old(alerts) && hasBackupCode == HasStrategy(factors, BackupName)
      ensures ChooseStrategy(factors) == Some(PhoneCode) ==>
        prepared == old(prepared) + [PhoneArgument(Find(factors, PhoneName).value)]
      ensures ChooseStrategy(factors) != Some(PhoneCode) ==> prepared == old(prepared)
      ensures thrown.Some? <==> ChooseStrategy(factors) == Some(PhoneCode) && preparePhone.Throws?
      ensures thrown.Some? ==> thrown.value == preparePhone.error
      ensures ChooseStrategy(factors).None? || thrown.Some? ==>
        pendingMFA == old(pendingMFA) && mfaStrategy == old(mfaStrategy)
      ensures ChooseStrategy(factors).Some? && thrown.None? ==>
        pendingMFA && mfaStrategy == ChooseStrategy(factors).value
    {
      var totp := Find(factors, TotpName);
      var phone := Find(factors, PhoneName);
      var backup := Find(factors, BackupName);
      if totp.None? && phone.None? && backup.None? {
        alerts := alerts + [Alert(NoFactorTitle, NoFactorMessage)];
        return None;
      }
      hasBackupCode := backup.Some?;
      if totp.Some? {
        mfaStrategy := Totp;
      } else if phone.Some? {
        prepared := prepared + [PhoneArgument(phone.value)];
        if preparePhone.Throws? {
          return Some(preparePhone.error);
        }
        mfaStrategy := PhoneCode;
      } else {
        mfaStrategy := BackupCode;
      }
      pendingMFA := true;
      thrown := None;
    }

    /** Entry of `handleSignIn` and `handleMFAVerify`: nothing happens unless
        Clerk is loaded and no request is in flight; otherwise `loading` is set
        and stays set while the request is awaited. */
    method Begin() returns (started: bool)
      modifies this`loading
      ensures started == (old(isLoaded) && old(hasSignIn) && !old(loading))
      ensures loading == (old(loading) || started)
    {
      if !isLoaded || !hasSignIn || loading {
        return false;
      }
      loading := true;
      started := true;
    }

    /** Everything the `try`/`catch`/`finally` of `handleSignIn` does, given
        what `signIn.create`, `setActive` and `prepareSecondFactor` do: one
        `create` with the inputs; on complete, `setActive` and then home; on
        needs_second_factor, the factor choice (whose `preparePhone` failure
        reaches the `catch`); on a throw, an alert. `loading` ends false. */
    twostate predicate SignInFinished(create: ClerkCall<SignInResult>, activate: ClerkCall<()>, prepare: ClerkCall<()>)
      reads this
    {
      && !loading
      && creates == old(creates) + [Credentials(old(email), old(password))]
      && (!(create.Ok? && create.value.status == StatusNeedsSecondFactor) ==>
            mfaStrategy == old(mfaStrategy) && hasBackupCode == old(hasBackupCode))
      && (create.Throws? ==>
            && alerts == old(alerts) + [ErrorAlert(create.error, SignInFailedMessage)]
            && activations == old(activations) && routes == old(routes)
            && pendingMFA == old(pendingMFA) && prepared == old(prepared))
      && (create.Ok? && create.value.status == StatusComplete ==>
            && activations == old(activations) + [create.value.createdSessionId]
            && pendingMFA == old(pendingMFA) && prepared == old(prepared)
            && (activate.Ok? ==> routes == old(routes) + [HomeRoute] && alerts == old(alerts))
            && (activate.Throws? ==>
                  routes == old(routes) && alerts == old(alerts) + [ErrorAlert(activate.error, SignInFailedMessage)]))
      && (create.Ok? && create.value.status == StatusNeedsSecondFactor ==>
            && activations == old(activations) && routes == old(routes)
            && var factors := match create.value.supportedSecondFactors case Some(fs) => fs case None => [];
               var choice := ChooseStrategy(factors);
               var failed := choice == Some(PhoneCode) && prepare.Throws?;
               && (choice.Some? && !failed ==> pendingMFA && mfaStrategy == choice.value && alerts == old(alerts))
               && (choice.Some? ==> hasBackupCode == HasStrategy(factors, BackupName))
               && (choice.None? ==>
                     && pendingMFA == old(pendingMFA) && mfaStrategy == old(mfaStrategy)
                     && hasBackupCode == old(hasBackupCode)
                     && alerts == old(alerts) + [Alert(NoFactorTitle, NoFactorMessage)])
               && (choice == Some(PhoneCode) ==>
                     prepared == old(prepared) + [PhoneArgument(Find(factors, PhoneName).value)])
               && (choice != Some(PhoneCode) ==> prepared == old(prepared))
               && (failed ==>
                     && pendingMFA == old(pendingMFA) && mfaStrategy == old(mfaStrategy)
                     && alerts == old(alerts) + [ErrorAlert(prepare.error, SignInFailedMessage)]))
      && (create.Ok? && create.value.status != StatusComplete && create.value.status != StatusNeedsSecondFactor ==>
            && alerts == old(alerts) && activations == old(activations) && routes == old(routes)
            && pendingMFA == old(pendingMFA) && prepared == old(prepared))
    }

    /** The `try`/`catch`/`finally` of `handleSignIn`. */
    method CompleteSignIn(create: ClerkCall<SignInResult>, activate: ClerkCall<()>, prepare: ClerkCall<()>)
      requires loading
      modifies this`loading, this`alerts, this`hasBackupCode, this`mfaStrategy, this`pendingMFA,
               this`prepared, this`creates, this`activations, this`routes
      ensures SignInFinished(create, activate, prepare)
    {
      creates := creates + [Credentials(email, password)];
      match create {
        case Throws(e) =>
          alerts := alerts + [ErrorAlert(e, SignInFailedMessage)];
        case Ok(result) =>
          if result.status == StatusComplete {
            activations := activations + [result.createdSessionId];
            match activate {
              case Throws(e) =>
                alerts := alerts + [ErrorAlert(e, SignInFailedMessage)];
              case Ok(_) =>
                routes := routes + [HomeRoute];
            }
          } else if result.status == StatusNeedsSecondFactor {
            var factors := match result.supportedSecondFactors case Some(fs) => fs case None => [];
            var thrown := HandleSecondFactor(factors, prepare);
            if thrown.Some? {
              alerts := alerts + [ErrorAlert(thrown.value, SignInFailedMessage)];
            }
          }
      }
      loading := false;
    }

    /** `handleSignIn`: nothing happens unless Clerk is loaded and no request
        is in flight; otherwise the whole sign-in runs. */
    method HandleSignIn(create: ClerkCall<SignInResult>, activate: ClerkCall<()>, prepare: ClerkCall<()>)
      modifies this`loading, this`alerts, this`hasBackupCode, this`mfaStrategy, this`pendingMFA,
               this`prepared, this`creates, this`activations, this`routes
      ensures !old(isLoaded) || !old(hasSignIn) || old(loading) ==>
        && loading == old(loading) && alerts == old(alerts) && creates == old(creates)
        && activations == old(activations) && routes == old(routes)
        && pendingMFA == old(pendingMFA) && prepared == old(prepared)
        && mfaStrategy == old(mfaStrategy) && hasBackupCode == old(hasBackupCode)
      ensures old(isLoaded) && old(hasSignIn) && !old(loading) ==> SignInFinished(create, activate, prepare)
    {
      var started := Begin();
      if started {
        CompleteSignIn(create, activate, prepare);
      }
    }

    /** Everything the `try`/`catch`/`finally` of `handleMFAVerify` does: one
        attempt with the current strategy and code; on complete, `setActive`
        and then home; any failure, of the attempt or of `setActive`, shows an
        alert and clears the code. `loading` ends false. */
    twostate predicate VerifyFinished(attempt: ClerkCall<SignInResult>, activate: ClerkCall<()>)
      reads this
    {
      && !loading
      && attempts == old(attempts) + [Attempt(Name(old(mfaStrategy)), old(mfaCode))]
      && (attempt.Throws? ==>
            && alerts == old(alerts) + [ErrorAlert(attempt.error, CodeRejectedMessage)]
            && mfaCode == "" && activations == old(activations) && routes == old(routes))
      && (attempt.Ok? && attempt.value.status == StatusComplete ==>
            && activations == old(activations) + [attempt.value.createdSessionId]
            && (activate.Ok? ==> routes == old(routes) + [HomeRoute] && alerts == old(alerts) && mfaCode == old(mfaCode))
            && (activate.Throws? ==>
                  && routes == old(routes) && mfaCode == ""
                  && alerts == old(alerts) + [ErrorAlert(activate.error, CodeRejectedMessage)]))
      && (attempt.Ok? && attempt.value.status != StatusComplete ==>
            && alerts == old(alerts) && mfaCode == old(mfaCode)
            && activations == old(activations) && routes == old(routes))
    }

    /** The `try`/`catch`/`finally` of `handleMFAVerify`. */
    method CompleteMFAVerify(attempt: ClerkCall<SignInResult>, activate: ClerkCall<()>)
      requires loading
      modifies this`loading, this`alerts, this`mfaCode, this`attempts, this`activations, this`routes
      ensures VerifyFinished(attempt, activate)
    {
      attempts := attempts + [Attempt(Name(mfaStrategy), mfaCode)];
      match attempt {
        case Throws(e) =>
          alerts := alerts + [ErrorAlert(e, CodeRejectedMessage)];
          mfaCode := "";
        case Ok(result) =>
          if result.status == StatusComplete {
            activations := activations + [result.createdSessionId];
            match activate {
              case Throws(e) =>
                alerts := alerts + [ErrorAlert(e, CodeRejectedMessage)];
                mfaCode := "";
              case Ok(_) =>
                routes := routes + [HomeRoute];
            }
          }
      }
      loading := false;
    }

    /** `handleMFAVerify`: the guard, then the whole verification. */
    method HandleMFAVerify(attempt: ClerkCall<SignInResult>, activate: ClerkCall<()>)
      modifies this`loading, this`alerts, this`mfaCode, this`attempts, this`activations, this`routes
      ensures !old(isLoaded) || !old(hasSignIn) || old(loading) ==>
        && loading == old(loading) && alerts == old(alerts) && mfaCode == old(mfaCode)
        && attempts == old(attempts) && activations == old(activations) && routes == old(routes)
      ensures old(isLoaded) && old(hasSignIn) && !old(loading) ==> VerifyFinished(attempt, activate)
    {
      var started := Begin();
      if started {
        CompleteMFAVerify(attempt, activate);
      }
    }

    /** "Use a backup code": switch the strategy and clear the code. */
    method UseBackupCode()
      requires BackupSwitchOffered()
      modifies this`mfaStrategy, this`mfaCode
      ensures mfaStrategy == BackupCode && mfaCode == ""
      ensures !BackupSwitchOffered()
    {
      mfaStrategy := BackupCode;
      mfaCode := "";
    }

    /** "Back to sign-in": leave the MFA screen and clear the code; the
        strategy and the backup flag are kept. */
    method Back()
      requires pendingMFA
      modifies this`pendingMFA, this`mfaCode
      ensures !pendingMFA && mfaCode == ""
    {
      pendingMFA := false;
      mfaCode := "";
    }
  }
}

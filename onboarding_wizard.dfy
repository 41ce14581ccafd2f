/**
 * The four-step signup wizard of the client: 1 email, 2 email verification,
 * 3 profile, 4 family. `ValidateStep` gates the Continue button,
 * `NextStep` and `BackStep` move between steps, the resend button has a
 * 60-second cooldown, and the family step edits a list of member drafts.
 */
module OnboardingWizard {
  import opened Wrappers
  import opened Js

  datatype Role = Parent | Child | Teen

  datatype MemberDraft = MemberDraft(name: string, role: Role, email: Option<string>)

  /** A `Partial<MemberDraft>`: the fields it supplies. */
  datatype MemberPatch = MemberPatch(name: Option<string>, role: Option<Role>, email: Option<string>)

  datatype OnboardingData = OnboardingData(email: string, fullName: string, password: string,
                                           familyName: string, familyMembers: seq<MemberDraft>)

  const EmptyData := OnboardingData("", "", "", "", [])

  // ---------------------------------------------------------------------------
  // The email pattern /^[^\s@]+@[^\s@]+\.[^\s@]+$/

  /** `[^\s@]` */
  predicate NameChar(c: char) {
    !IsSpace(c) && c != '@'
  }

  predicate NameChars(s: string) {
    forall k :: 0 <= k < |s| ==> NameChar(s[k])
  }

  /**
   * The regular expression matches `s` with its `@` at `at` and the escaped
   * `\.` at `dot`: `s[..at]`, `s[at+1..dot]` and `s[dot+1..]` are non-empty
   * runs of `[^\s@]`.
   */
  ghost predicate EmailMatchAt(s: string, at: int, dot: int) {
    && 0 < at && at + 1 < dot && dot + 1 < |s|
    && s[at] == '@' && s[dot] == '.'
    && NameChars(s[..at]) && NameChars(s[at + 1..dot]) && NameChars(s[dot + 1..])
  }

  ghost predicate MatchesEmailPattern(s: string) {
    exists at, dot :: EmailMatchAt(s, at, dot)
  }

  /** A dot with at least one character on each side. */
  predicate HasInnerDot(d: string) {
    exists j :: 1 <= j < |d| - 1 && d[j] == '.'
  }

  /** The test the wizard runs, written without a regular-expression engine. */
  predicate LooksLikeEmail(s: string) {
    var at := IndexOf(s, '@');
    && 0 < at < |s|
    && NameChars(s[..at]) && NameChars(s[at + 1..])
    && HasInnerDot(s[at + 1..])
  }

  /** The scan accepts exactly the strings the regular expression matches. */
  lemma LooksLikeEmailIsPattern(s: string)
    ensures LooksLikeEmail(s) <==> MatchesEmailPattern(s)
  {
    var at := IndexOf(s, '@');
    if LooksLikeEmail(s) {
      var d := s[at + 1..];
      var j :| 1 <= j < |d| - 1 && d[j] == '.';
      var dot := at + 1 + j;
      assert s[at + 1..dot] == d[..j];
      assert s[dot + 1..] == d[j + 1..];
      assert EmailMatchAt(s, at, dot);
    }
    if MatchesEmailPattern(s) {
      var a, dot :| EmailMatchAt(s, a, dot);
      assert IndexOf(s, '@') == a by {
        assert forall k :: 0 <= k < a ==> s[k] == s[..a][k] && s[k] != '@';
      }
      var d := s[a + 1..];
      assert forall k :: 0 <= k < |d| ==> NameChar(d[k]) by {
        forall k | 0 <= k < |d| ensures NameChar(d[k]) {
          if a + 1 + k < dot {
            assert d[k] == s[a + 1..dot][k];
          } else if a + 1 + k > dot {
            assert d[k] == s[dot + 1..][a + k - dot];
          } else {
            assert d[k] == '.';
          }
        }
      }
      assert d[dot - a - 1] == '.';
    }
  }

  // ---------------------------------------------------------------------------
  // Step validation

  /** `validateStep(step)`; JavaScript lengths count UTF-16 code units. */
  predicate ValidateStep(step: int, data: OnboardingData, verificationSent: bool)
    ensures ValidateStep(step, data, verificationSent) ==> 1 <= step <= 4
    ensures step == 2 ==> (ValidateStep(step, data, verificationSent) <==> verificationSent)
    ensures step == 3 && ValidateStep(step, data, verificationSent) ==> 3 <= |data.password| && 1 <= |data.fullName|
  {
    match step
    case 1 => EmailStepValid(data)
    case 2 => verificationSent
    case 3 => ProfileStepValid(data)
    case 4 => FamilyStepValid(data)
    case _ => false
  }

  /** Step 1: an e-mail that the pattern accepts. */
  predicate EmailStepValid(data: OnboardingData) {
    data.email != "" && LooksLikeEmail(data.email)
  }

  /** Step 3: a full name of two code units once trimmed, and a password of six. */
  predicate ProfileStepValid(data: OnboardingData)
    ensures ProfileStepValid(data) ==> 3 <= |data.password| && 1 <= |data.fullName|
  {
    data.fullName != "" && Utf16Length(Trim(data.fullName)) >= 2
    && data.password != "" && Utf16Length(data.password) >= 6
  }

  /** Step 4: a family name of two code units once trimmed. */
  predicate FamilyStepValid(data: OnboardingData) {
    data.familyName != "" && Utf16Length(Trim(data.familyName)) >= 2
  }

  /** Step 1 accepts exactly the emails the pattern matches; the separate emptiness test adds nothing. */
  lemma EmailStepIsPattern(data: OnboardingData, verificationSent: bool)
    ensures ValidateStep(1, data, verificationSent) <==> MatchesEmailPattern(data.email)
  {
    LooksLikeEmailIsPattern(data.email);
  }

  /** A trimmed name needs two non-space characters, or one character outside the BMP. */
  lemma FamilyStepNeedsContent(data: OnboardingData, verificationSent: bool)
    requires ValidateStep(4, data, verificationSent)
    ensures exists k :: 0 <= k < |data.familyName| && !IsSpace(data.familyName[k])
  {
    var r := Trim(data.familyName);
    var i, j :| StripsTo(data.familyName, i, j) && r == data.familyName[i..j];
    assert r != [];
    assert !IsSpace(data.familyName[i]);
  }

  // ---------------------------------------------------------------------------
  // The wizard's state machine

  datatype Wizard = Wizard(currentStep: int, data: OnboardingData, verificationSent: bool,
                           resendCooldown: nat, completions: nat)

  const ResendCooldown: nat := 60

  function Start(initialStep: int): Wizard {
    Wizard(initialStep, EmptyData, false, 0, 0)
  }

  /**
   * `handleNextStep`: nothing on an invalid step; step 1 submits the email
   * (`signUpOk`: the provider accepted the signup) and moves to step 2 on
   * success; step 4 completes the signup (`completeOk`: session, profile
   * update and server call all succeeded) and calls `onComplete`; the other
   * valid steps advance by one.
   */
  function Next(w: Wizard, signUpOk: bool, completeOk: bool): (w': Wizard)
    ensures !ValidateStep(w.currentStep, w.data, w.verificationSent) ==> w' == w
    ensures w'.data == w.data && w'.resendCooldown == w.resendCooldown
    ensures w.currentStep in {2, 3} && ValidateStep(w.currentStep, w.data, w.verificationSent)
            ==> w' == w.(currentStep := w.currentStep + 1)
    ensures w'.currentStep != w.currentStep ==> ValidateStep(w.currentStep, w.data, w.verificationSent)
    ensures w'.currentStep == 2 && w.currentStep == 1 ==> w'.verificationSent
    ensures w'.completions == w.completions + (if w.currentStep == 4 && completeOk
                                               && ValidateStep(4, w.data, w.verificationSent) then 1 else 0)
    ensures w.currentStep == 1 && ValidateStep(1, w.data, w.verificationSent) ==>
              w' == (if signUpOk then w.(verificationSent := true, currentStep := 2) else w)
    ensures w.currentStep == 4 ==>
              w' == w.(completions := w'.completions)
  {
    if !ValidateStep(w.currentStep, w.data, w.verificationSent) then w
    else if w.currentStep == 1 then
      if signUpOk then w.(verificationSent := true, currentStep := 2) else w
    else if w.currentStep == 4 then
      if completeOk then w.(completions := w.completions + 1) else w
    else w.(currentStep := w.currentStep + 1)
  }

  /** `Next` by cases, given the outcome of the step's validation. */
  lemma NextByCases(w: Wizard, valid: bool, signUpOk: bool, completeOk: bool)
    requires valid == ValidateStep(w.currentStep, w.data, w.verificationSent)
    ensures Next(w, signUpOk, completeOk)
         == if !valid then w
            else if w.currentStep == 1 then (if signUpOk then w.(verificationSent := true, currentStep := 2) else w)
            else if w.currentStep == 4 then (if completeOk then w.(completions := w.completions + 1) else w)
            else w.(currentStep := w.currentStep + 1)
  {
  }

  /** The Back button is shown from step 3 on, never on the verification step. */
  predicate BackOffered(w: Wizard) {
    w.currentStep > 1 && w.currentStep != 2
  }

  function Back(w: Wizard): (w': Wizard)
    requires BackOffered(w)
    ensures w'.currentStep == w.currentStep - 1 >= 2
    ensures w' == w.(currentStep := w'.currentStep)
  {
    w.(currentStep := w.currentStep - 1)
  }

  /** Forward and back moves keep a wizard that starts on one of the four steps on one of them. */
  lemma StepsStayInRange(w: Wizard, signUpOk: bool, completeOk: bool)
    requires 1 <= w.currentStep <= 4
    ensures 1 <= Next(w, signUpOk, completeOk).currentStep <= 4
    ensures BackOffered(w) ==> 1 <= Back(w).currentStep <= 4
  {
  }

  /** `handleResendVerification`: ignored while cooling down; a successful resend starts a 60-second cooldown. */
  function Resend(w: Wizard, ok: bool): (w': Wizard)
    ensures w.resendCooldown > 0 ==> w' == w
    ensures w.resendCooldown == 0 ==> w' == (if ok then w.(resendCooldown := ResendCooldown) else w)
  {
    if w.resendCooldown > 0 then w
    else if ok then w.(resendCooldown := ResendCooldown)
    else w
  }

  /** The cooldown effect: one second later a positive cooldown drops by one. */
  function Tick(w: Wizard): (w': Wizard)
    ensures w'.resendCooldown == if w.resendCooldown > 0 then w.resendCooldown - 1 else 0
    ensures w' == w.(resendCooldown := w'.resendCooldown)
  {
    if w.resendCooldown > 0 then w.(resendCooldown := w.resendCooldown - 1) else w
  }

  function Ticks(w: Wizard, n: nat): Wizard
    decreases n
  {
    if n == 0 then w else Ticks(Tick(w), n - 1)
  }

  /** After `n` seconds the cooldown has dropped by `n`, down to zero. */
  lemma {:induction false} TicksCountDown(w: Wizard, n: nat)
    ensures Ticks(w, n).resendCooldown == if w.resendCooldown >= n then w.resendCooldown - n else 0
    ensures Ticks(w, n) == w.(resendCooldown := Ticks(w, n).resendCooldown)
    decreases n
  {
    if n > 0 {
      TicksCountDown(Tick(w), n - 1);
    }
  }

  /** A resend within 60 seconds of a successful one does nothing; after 60 seconds it is accepted again. */
  lemma ResendBlockedForAMinute(w: Wizard, n: nat, ok: bool)
    requires w.resendCooldown == 0
    ensures var sent := Resend(w, true);
            && (n < ResendCooldown ==> Resend(Ticks(sent, n), ok) == Ticks(sent, n))
            && (n >= ResendCooldown ==> Ticks(sent, n).resendCooldown == 0)
  {
    TicksCountDown(Resend(w, true), n);
  }

  // ---------------------------------------------------------------------------
  // The family step's member list

  const NewMember := MemberDraft("", Child, None)

  function AddMember(members: seq<MemberDraft>): (r: seq<MemberDraft>)
    ensures |r| == |members| + 1 && r[..|members|] == members && r[|members|] == NewMember
  {
    members + [NewMember]
  }

  /** `{ ...draft, ...updates }` */
  function Merge(m: MemberDraft, p: MemberPatch): (r: MemberDraft)
    ensures r.name == p.name.GetOr(m.name) && r.role == p.role.GetOr(m.role)
    ensures r.email == (if p.email.Some? then p.email else m.email)
  {
    MemberDraft(p.name.GetOr(m.name), p.role.GetOr(m.role), if p.email.Some? then p.email else m.email)
  }

  function UpdateMember(members: seq<MemberDraft>, index: nat, p: MemberPatch): (r: seq<MemberDraft>)
    requires index < |members|
    ensures |r| == |members| && r[index] == Merge(members[index], p)
    ensures forall k :: 0 <= k < |members| && k != index ==> r[k] == members[k]
  {
    members[index := Merge(members[index], p)]
  }

  /** `members.filter((_, i) => i !== index)`, with `offset` the position of `members[0]`. */
  function FilterOutIndex(members: seq<MemberDraft>, index: int, offset: int): seq<MemberDraft> {
    if members == [] then []
    else (if offset == index then [] else [members[0]]) + FilterOutIndex(members[1..], index, offset + 1)
  }

  lemma {:induction false} FilterOutIndexSplits(members: seq<MemberDraft>, index: int, offset: int)
    ensures offset <= index < offset + |members|
            ==> FilterOutIndex(members, index, offset) == members[..index - offset] + members[index - offset + 1..]
    ensures !(offset <= index < offset + |members|) ==> FilterOutIndex(members, index, offset) == members
  {
    if members != [] {
      var tail := members[1..];
      FilterOutIndexSplits(tail, index, offset + 1);
      var rest := FilterOutIndex(tail, index, offset + 1);
      assert FilterOutIndex(members, index, offset) == (if offset == index then [] else [members[0]]) + rest;
      if offset < index < offset + |members| {
        ConsDropAt(members, index - offset);
      } else if offset != index {
        assert members == [members[0]] + tail;
      }
    }
  }

  /** Dropping position `n > 0` commutes with taking the first entry off. */
  lemma ConsDropAt(s: seq<MemberDraft>, n: nat)
    requires 1 <= n < |s|
    ensures [s[0]] + (s[1..][..n - 1] + s[1..][n..]) == s[..n] + s[n + 1..]
  {
    assert s[..n] == [s[0]] + s[1..][..n - 1];
    assert s[n + 1..] == s[1..][n..];
  }

  /** `removeFamilyMember`: drops exactly the entry at `index` and keeps the others in order; an index outside the list removes nothing. */
  function RemoveMember(members: seq<MemberDraft>, index: int): (r: seq<MemberDraft>)
    ensures 0 <= index < |members| ==> r == members[..index] + members[index + 1..]
    ensures 0 <= index < |members| ==> |r| == |members| - 1
    ensures !(0 <= index < |members|) ==> r == members
  {
    FilterOutIndexSplits(members, index, 0);
    FilterOutIndex(members, index, 0)
  }

  /** The family step's default name: the first word of the full name followed by " Family". */
  function SuggestFamilyName(data: OnboardingData): (d: OnboardingData)
    ensures data.fullName != "" && data.familyName == "" ==> d.familyName == BeforeFirst(data.fullName, ' ') + " Family"
    ensures !(data.fullName != "" && data.familyName == "") ==> d == data
    ensures d == data.(familyName := d.familyName)
  {
    if data.fullName != "" && data.familyName == "" then
      data.(familyName := BeforeFirst(data.fullName, ' ') + " Family")
    else data
  }

  // ---------------------------------------------------------------------------
  // The component's state, updated in place

  class WizardComponent {
    var currentStep: int
    var data: OnboardingData
    var verificationSent: bool
    var resendCooldown: nat
    var completions: nat

    function Current(): Wizard
      reads this
    {
      Wizard(currentStep, data, verificationSent, resendCooldown, completions)
    }

    constructor (initialStep: int)
      ensures Current() == Start(initialStep)
    {
      currentStep := initialStep;
      data := EmptyData;
      verificationSent := false;
      resendCooldown := 0;
      completions := 0;
    }

    method HandleNextStep(signUpOk: bool, completeOk: bool)
      modifies this
      ensures Current() == Next(old(Current()), signUpOk, completeOk)
    {
      var step, valid := currentStep, ValidateStep(currentStep, data, verificationSent);
      NextByCases(Current(), valid, signUpOk, completeOk);
      if valid && step == 1 {
        if signUpOk {
          verificationSent := true;
          currentStep := 2;
        }
      } else if valid && step == 4 {
        if completeOk {
          completions := completions + 1;
        }
      } else if valid {
        currentStep := step + 1;
      }
    }

    method HandleBack()
      requires BackOffered(Current())
      modifies this
      ensures Current() == Back(old(Current()))
    {
      currentStep := currentStep - 1;
    }

    method HandleResendVerification(ok: bool)
      modifies this
      ensures Current() == Resend(old(Current()), ok)
    {
      if resendCooldown > 0 {
        return;
      }
      if ok {
        resendCooldown := ResendCooldown;
      }
    }

    method CooldownTick()
      modifies this
      ensures Current() == Tick(old(Current()))
    {
      if resendCooldown > 0 {
        resendCooldown := resendCooldown - 1;
      }
    }

    method AddFamilyMember()
      modifies this
      ensures Current() == old(Current()).(data := old(data).(familyMembers := AddMember(old(data.familyMembers))))
    {
      data := data.(familyMembers := data.familyMembers + [NewMember]);
    }

    method UpdateFamilyMember(index: nat, updates: MemberPatch)
      requires index < |data.familyMembers|
      modifies this
      ensures Current() == old(Current()).(data := old(data).(familyMembers := UpdateMember(old(data.familyMembers), index, updates)))
    {
      var updated := data.familyMembers;
      updated := updated[index := Merge(updated[index], updates)];
      data := data.(familyMembers := updated);
    }

    method RemoveFamilyMember(index: int)
      modifies this
      ensures Current() == old(Current()).(data := old(data).(familyMembers := RemoveMember(old(data.familyMembers), index)))
    {
      data := data.(familyMembers := RemoveMember(data.familyMembers, index));
    }
  }
}

/** The PIN lock screen (client/screens/AuthLockScreen.tsx): a six-digit entry
    buffer, a failure counter that only a success resets, an escalating lockout
    and its one-second countdown.

    The screen's behaviour is given twice: as transition functions on a
    `LockState` value (used to reason about runs of several inputs) and as the
    class `LockScreen`, whose handlers update their fields step by step and are
    proved to agree with those functions. The asynchronous parts (the 100 ms
    delay before verification, the 500 ms before the buffer is cleared) are
    folded into the handler that starts them. */
module AuthLock {
  import opened Common
  import opened AppTypes
  import Storage

  const PIN_LENGTH: nat := 6
  const MAX_ATTEMPTS: nat := 5
  const BASE_LOCK_SECONDS: nat := 30
  const MAX_LOCK_SECONDS: nat := 3600

  // ---------------------------------------------------------------------
  // Lockout duration

  function Pow2(k: nat): (r: nat)
    ensures r >= 1
  {
    if k == 0 then 1 else 2 * Pow2(k - 1)
  }

  lemma {:induction false} Pow2Monotone(j: nat, k: nat)
    requires j <= k
    ensures Pow2(j) <= Pow2(k)
    decreases k
  {
    if j < k {
      Pow2Monotone(j, k - 1);
    }
  }

  /** The lockout, in seconds, imposed by the n-th consecutive failure (n >= 5). */
  function LockDuration(failures: nat): (d: nat)
    requires failures >= MAX_ATTEMPTS
    ensures BASE_LOCK_SECONDS <= d <= MAX_LOCK_SECONDS
  {
    Min(BASE_LOCK_SECONDS * Pow2(failures / MAX_ATTEMPTS - 1), MAX_LOCK_SECONDS)
  }

  /** More failures never mean a shorter lockout. */
  lemma {:induction false} LockDurationMonotone(n: nat, m: nat)
    requires MAX_ATTEMPTS <= n <= m
    ensures LockDuration(n) <= LockDuration(m)
  {
    Pow2Monotone(n / MAX_ATTEMPTS - 1, m / MAX_ATTEMPTS - 1);
  }

  /** Failures 5k to 5k+4 all lock for 30 * 2^(k-1) seconds, capped at an hour. */
  lemma LockDurationSchedule(k: nat, n: nat)
    requires k >= 1 && MAX_ATTEMPTS * k <= n < MAX_ATTEMPTS * k + MAX_ATTEMPTS
    ensures LockDuration(n) == Min(BASE_LOCK_SECONDS * Pow2(k - 1), MAX_LOCK_SECONDS)
  {
    assert n / MAX_ATTEMPTS == k;
  }

  /** The one-hour cap is reached exactly from the 40th failure on. */
  lemma {:induction false} LockDurationCap(n: nat)
    requires n >= MAX_ATTEMPTS
    ensures LockDuration(n) == MAX_LOCK_SECONDS <==> n >= 40
  {
    if n >= 40 {
      Pow2Monotone(7, n / MAX_ATTEMPTS - 1);
      assert Pow2(7) == 128;
    } else {
      Pow2Monotone(n / MAX_ATTEMPTS - 1, 6);
      assert Pow2(6) == 64;
    }
  }

  // ---------------------------------------------------------------------
  // The screen's state as a value

  datatype LockState = LockState(pin: string, error: bool, attempts: nat, isLocked: bool, lockTime: nat)

  const INITIAL: LockState := LockState("", false, 0, false, 0)

  /** What holds of every state the screen can reach. */
  ghost predicate Inv(s: LockState)
  {
    && |s.pin| <= PIN_LENGTH && AllDigits(s.pin)
    && s.lockTime <= MAX_LOCK_SECONDS
    && (s.isLocked <==> s.lockTime > 0)
    && (s.isLocked ==> s.attempts >= MAX_ATTEMPTS && s.pin == [])
  }

  /** handleKeyPress accepts a key only when not locked and the buffer is not full. */
  predicate TakesKey(s: LockState)
  {
    !s.isLocked && |s.pin| < PIN_LENGTH
  }

  /** handleSuccess: the failure counter goes back to zero, which hides the
      attempts hint, and nothing else changes. */
  function Succeeded(s: LockState): (t: LockState)
    ensures t.attempts == 0 && AttemptsRemaining(t.attempts).None?
    ensures t.(attempts := s.attempts) == s
  {
    s.(attempts := 0)
  }

  /** handleFailure writes an intruder record exactly when this holds. */
  predicate FailureLogs(s: LockState)
  {
    s.attempts + 1 >= MAX_ATTEMPTS
  }

  /** handleFailure, followed by the delayed clearing of the buffer: one more
      failure, an empty buffer, and from the fifth failure on a lockout of between
      30 seconds and an hour; below five the lock state is left alone. */
  function Failed(s: LockState): (t: LockState)
    ensures t.attempts == s.attempts + 1 && t.pin == [] && !t.error
    ensures FailureLogs(s) ==> t.isLocked && BASE_LOCK_SECONDS <= t.lockTime <= MAX_LOCK_SECONDS
    ensures !FailureLogs(s) ==> t.isLocked == s.isLocked && t.lockTime == s.lockTime
  {
    var n := s.attempts + 1;
    var t := s.(attempts := n, pin := [], error := false);
    if n >= MAX_ATTEMPTS then t.(lockTime := LockDuration(n), isLocked := true) else t
  }

  /** The outcome of verifying the full buffer against the stored record. */
  function Verdict(config: Option<AuthConfig>, s: LockState): LockState
  {
    if Storage.PinAccepted(config, s.pin) then Succeeded(s) else Failed(s)
  }

  /** handleKeyPress, with the verification it schedules once six digits are in.
      A locked screen or a full buffer ignores the key; a key short of six is
      appended; only an accepted PIN lowers the failure count, and a key locks
      the screen only once five failures are counted. */
  function Pressed(s: LockState, key: char, config: Option<AuthConfig>): (t: LockState)
    ensures !TakesKey(s) ==> t == s
    ensures TakesKey(s) && |s.pin| + 1 < PIN_LENGTH ==> t == s.(pin := s.pin + [key], error := false)
    ensures t.attempts < s.attempts ==> t.attempts == 0 && Storage.PinAccepted(config, s.pin + [key])
    ensures t.isLocked && !s.isLocked ==> t.attempts >= MAX_ATTEMPTS
  {
    if !TakesKey(s) then s
    else
      var t := s.(pin := s.pin + [key], error := false);
      if |t.pin| == PIN_LENGTH then Verdict(config, t) else t
  }

  /** handleDelete: unless locked, the buffer loses its last digit (an empty one
      stays empty) and the error is cleared; nothing else changes. */
  function Deleted(s: LockState): (t: LockState)
    ensures s.isLocked ==> t == s
    ensures !s.isLocked ==> t.pin <= s.pin && |t.pin| == (if s.pin == [] then 0 else |s.pin| - 1) && !t.error
    ensures t.(pin := s.pin, error := s.error) == s
  {
    if s.isLocked then s
    else s.(pin := if s.pin == [] then [] else s.pin[..|s.pin| - 1], error := false)
  }

  /** One elapsed second: the countdown timer lowers `lockTime`, and the effect
      that the new value re-triggers lifts the lock once it reaches zero. The
      lock then stays exactly while time remains; nothing else changes. */
  function Ticked(s: LockState): (t: LockState)
    ensures t.lockTime == if s.lockTime > 0 then s.lockTime - 1 else 0
    ensures t.isLocked <==> s.isLocked && t.lockTime > 0
    ensures t.(lockTime := s.lockTime, isLocked := s.isLocked) == s
  {
    var u := if s.lockTime > 0 then s.(lockTime := s.lockTime - 1) else s;
    if u.isLocked && u.lockTime == 0 then u.(isLocked := false) else u
  }

  /** handleBiometric, given whether the platform check succeeded: only a
      successful check off web on an unlocked screen has an effect, and it only
      zeroes the failure count. */
  function BiometricResult(s: LockState, isWeb: bool, success: bool): (t: LockState)
    ensures isWeb || s.isLocked || !success ==> t == s
    ensures !isWeb && !s.isLocked && success ==> t.attempts == 0
    ensures t.(attempts := s.attempts) == s
  {
    if isWeb || s.isLocked || !success then s else Succeeded(s)
  }

  /** One input to the screen: a digit key, the delete key, a biometric
      attempt, or one elapsed second (the timer firing together with the effect
      it re-triggers). */
  datatype Event = Key(digit: char) | Erase | Fingerprint(isWeb: bool, success: bool) | Second

  predicate WellFormed(e: Event)
  {
    e.Key? ==> IsDigit(e.digit)
  }

  function Step(config: Option<AuthConfig>, s: LockState, e: Event): LockState
  {
    match e
    case Key(d) => Pressed(s, d, config)
    case Erase => Deleted(s)
    case Fingerprint(isWeb, success) => BiometricResult(s, isWeb, success)
    case Second => Ticked(s)
  }

  function Run(config: Option<AuthConfig>, s: LockState, es: seq<Event>): LockState
    decreases |es|
  {
    if es == [] then s else Run(config, Step(config, s, es[0]), es[1..])
  }

  function Digits(p: string): seq<Event>
  {
    seq(|p|, i requires 0 <= i < |p| => Key(p[i]))
  }

  function Seconds(k: nat): seq<Event>
  {
    seq(k, _ => Second)
  }

  // ---------------------------------------------------------------------
  // Properties of the transitions

  /** Every input keeps the reachable-state invariant. */
  lemma StepPreservesInv(config: Option<AuthConfig>, s: LockState, e: Event)
    requires Inv(s) && WellFormed(e)
    ensures Inv(Step(config, s, e))
  {
  }

  lemma {:induction false} RunPreservesInv(config: Option<AuthConfig>, s: LockState, es: seq<Event>)
    requires Inv(s)
    requires forall i :: 0 <= i < |es| ==> WellFormed(es[i])
    ensures Inv(Run(config, s, es))
    decreases |es|
  {
    if es != [] {
      StepPreservesInv(config, s, es[0]);
      RunPreservesInv(config, Step(config, s, es[0]), es[1..]);
    }
  }

  lemma {:induction false} RunAppend(config: Option<AuthConfig>, s: LockState, a: seq<Event>, b: seq<Event>)
    ensures Run(config, s, a + b) == Run(config, Run(config, s, a), b)
    decreases |a|
  {
    if a == [] {
      assert a + b == b;
    } else {
      assert (a + b)[0] == a[0];
      assert (a + b)[1..] == a[1..] + b;
      RunAppend(config, Step(config, s, a[0]), a[1..], b);
    }
  }

  /** While locked, keys, delete and biometric attempts change nothing at all. */
  lemma LockedIgnoresInput(config: Option<AuthConfig>, s: LockState, e: Event)
    requires s.isLocked && !e.Second?
    ensures Step(config, s, e) == s
  {
  }

  /** Every failure, the fifth and each later one, locks; earlier ones do not.
      The new lockout is LockDuration of the new count. */
  lemma FailureRule(s: LockState)
    requires Inv(s) && !s.isLocked
    ensures Failed(s).attempts == s.attempts + 1 && Failed(s).pin == []
    ensures Failed(s).isLocked <==> s.attempts + 1 >= MAX_ATTEMPTS
    ensures Failed(s).isLocked ==> Failed(s).lockTime == LockDuration(s.attempts + 1)
    ensures !Failed(s).isLocked ==> Failed(s).lockTime == 0
  {
  }

  /** A correct PIN leaves the screen unlocked with no failures counted. */
  lemma SuccessResets(config: Option<AuthConfig>, s: LockState, key: char)
    requires Inv(s) && TakesKey(s) && |s.pin| + 1 == PIN_LENGTH
    requires Storage.PinAccepted(config, s.pin + [key])
    ensures Pressed(s, key, config).attempts == 0 && !Pressed(s, key, config).isLocked
  {
  }

  /** Typing digits into a buffer that stays short of six only appends them. */
  lemma {:induction false} TypeDigits(config: Option<AuthConfig>, s: LockState, p: string)
    requires !s.isLocked && |s.pin| + |p| < PIN_LENGTH
    ensures Run(config, s, Digits(p)) == if p == [] then s else s.(pin := s.pin + p, error := false)
    decreases |p|
  {
    if p != [] {
      var t := s.(pin := s.pin + [p[0]], error := false);
      assert Digits(p)[0] == Key(p[0]);
      assert Step(config, s, Key(p[0])) == t;
      assert Digits(p)[1..] == Digits(p[1..]);
      TypeDigits(config, t, p[1..]);
      assert s.pin + [p[0]] + p[1..] == s.pin + p;
    }
  }

  /** Entering six digits from an empty, unlocked buffer verifies exactly those six. */
  lemma EnterPin(config: Option<AuthConfig>, s: LockState, p: string)
    requires !s.isLocked && s.pin == [] && |p| == PIN_LENGTH
    ensures Run(config, s, Digits(p)) == Verdict(config, s.(pin := p, error := false))
  {
    assert Digits(p) == Digits(p[..5]) + [Key(p[5])];
    RunAppend(config, s, Digits(p[..5]), [Key(p[5])]);
    TypeDigits(config, s, p[..5]);
    var t := s.(pin := p[..5], error := false);
    assert p[..5] + [p[5]] == p;
    assert Run(config, t, [Key(p[5])]) == Step(config, t, Key(p[5]));
  }

  /** During a lockout of L seconds the first L - 1 ticks only count down. */
  lemma {:induction false} CountDown(config: Option<AuthConfig>, s: LockState, k: nat)
    requires k < s.lockTime
    ensures Run(config, s, Seconds(k)) == s.(lockTime := s.lockTime - k)
    decreases k
  {
    if k > 0 {
      assert Seconds(k)[0] == Second;
      assert Seconds(k)[1..] == Seconds(k - 1);
      CountDown(config, s.(lockTime := s.lockTime - 1), k - 1);
    }
  }

  /** A lockout of L seconds holds for L - 1 seconds and is lifted by the L-th,
      which keeps the failure count. */
  lemma LockExpires(config: Option<AuthConfig>, s: LockState)
    requires Inv(s) && s.isLocked
    ensures Run(config, s, Seconds(s.lockTime - 1)).isLocked
    ensures Run(config, s, Seconds(s.lockTime)) == s.(lockTime := 0, isLocked := false)
  {
    CountDown(config, s, s.lockTime - 1);
    assert Seconds(s.lockTime) == Seconds(s.lockTime - 1) + [Second];
    RunAppend(config, s, Seconds(s.lockTime - 1), [Second]);
  }

  /** `k` copies of an input sequence, one after the other. */
  function Repeat(es: seq<Event>, k: nat): seq<Event>
  {
    if k == 0 then [] else Repeat(es, k - 1) + es
  }

  /** A wrong six-digit PIN entered on an idle, unlocked screen counts one failure. */
  lemma WrongEntry(config: Option<AuthConfig>, s: LockState, wrong: string)
    requires |wrong| == PIN_LENGTH && !Storage.PinAccepted(config, wrong)
    requires s.pin == [] && !s.isLocked
    ensures Run(config, s, Digits(wrong)) == Failed(s)
  {
    EnterPin(config, s, wrong);
  }

  /** Up to four wrong PINs from the start count that many failures and do not lock. */
  lemma {:induction false} WrongEntries(config: Option<AuthConfig>, wrong: string, k: nat)
    requires |wrong| == PIN_LENGTH && !Storage.PinAccepted(config, wrong)
    requires k < MAX_ATTEMPTS
    ensures Run(config, INITIAL, Repeat(Digits(wrong), k)) == LockState([], false, k, false, 0)
  {
    if k > 0 {
      WrongEntries(config, wrong, k - 1);
      RunAppend(config, INITIAL, Repeat(Digits(wrong), k - 1), Digits(wrong));
      WrongEntry(config, LockState([], false, k - 1, false, 0), wrong);
    }
  }

  /** The fifth wrong PIN in a row locks the screen for 30 seconds. */
  lemma FifthFailureLocks(config: Option<AuthConfig>, wrong: string)
    requires |wrong| == PIN_LENGTH && !Storage.PinAccepted(config, wrong)
    ensures Run(config, INITIAL, Repeat(Digits(wrong), 5)) == LockState([], false, 5, true, 30)
  {
    WrongEntries(config, wrong, 4);
    RunAppend(config, INITIAL, Repeat(Digits(wrong), 4), Digits(wrong));
    WrongEntry(config, LockState([], false, 4, false, 0), wrong);
  }

  /** Waiting out the first lockout keeps the count at five. */
  lemma FirstLockoutExpires(config: Option<AuthConfig>, wrong: string)
    requires |wrong| == PIN_LENGTH && !Storage.PinAccepted(config, wrong)
    ensures Run(config, INITIAL, Repeat(Digits(wrong), 5) + Seconds(30)) == LockState([], false, 5, false, 0)
  {
    FifthFailureLocks(config, wrong);
    LockExpires(config, LockState([], false, 5, true, 30));
    RunAppend(config, INITIAL, Repeat(Digits(wrong), 5), Seconds(30));
  }

  /** Four wrong PINs leave one attempt; the fifth locks for 30 s; once that
      expires the count is still 5, so the sixth wrong PIN locks again. */
  lemma EscalationScenario(config: Option<AuthConfig>, wrong: string)
    requires |wrong| == PIN_LENGTH && !Storage.PinAccepted(config, wrong)
    ensures var s4 := Run(config, INITIAL, Repeat(Digits(wrong), 4));
      s4.attempts == 4 && !s4.isLocked && AttemptsRemaining(s4.attempts) == Some(1)
    ensures var s5 := Run(config, INITIAL, Repeat(Digits(wrong), 5));
      s5.attempts == 5 && s5.isLocked && s5.lockTime == 30
    ensures var s6 := Run(config, INITIAL, Repeat(Digits(wrong), 5) + Seconds(30) + Digits(wrong));
      s6.attempts == 6 && s6.isLocked && s6.lockTime == 30
  {
    WrongEntries(config, wrong, 4);
    FifthFailureLocks(config, wrong);
    FirstLockoutExpires(config, wrong);
    RunAppend(config, INITIAL, Repeat(Digits(wrong), 5) + Seconds(30), Digits(wrong));
    WrongEntry(config, LockState([], false, 5, false, 0), wrong);
  }

  // ---------------------------------------------------------------------
  // Pure helpers of the view

  /** The "N attempts remaining" hint: shown only between the first and the fifth failure. */
  function AttemptsRemaining(attempts: nat): (r: Option<nat>)
    ensures r.Some? <==> 0 < attempts < MAX_ATTEMPTS
    ensures r.Some? ==> 1 <= r.value < MAX_ATTEMPTS && r.value + attempts == MAX_ATTEMPTS
  {
    if attempts > 0 && attempts < MAX_ATTEMPTS then Some(MAX_ATTEMPTS - attempts) else None
  }

  /** formatLockTime: the minutes, a colon, and exactly two digits of seconds. */
  function FormatLockTime(seconds: nat): (r: string)
    ensures |r| >= 4 && r[|r| - 3] == ':' && AllDigits(r[|r| - 2..])
  {
    DecimalBelowHundred(seconds % 60);
    Decimal(seconds / 60) + ":" + PadTwo(Decimal(seconds % 60))
  }

  lemma DecimalBelowHundred(n: nat)
    requires n < 100
    ensures 1 <= |Decimal(n)| <= 2
    ensures |Decimal(n)| == 1 <==> n < 10
  {
    if n >= 10 {
      assert Decimal(n) == Decimal(n / 10) + [DigitChar(n % 10)];
    }
  }

  /** Reading the text back gives the minutes, then two digits for seconds under 60,
      which together make up the original number of seconds. */
  lemma FormatLockTimeReadsBack(seconds: nat)
    ensures var r := FormatLockTime(seconds);
      && |r| >= 4 && r[|r| - 3] == ':'
      && AllDigits(r[..|r| - 3]) && AllDigits(r[|r| - 2..])
      && DigitsValue(r[|r| - 2..]) < 60
      && DigitsValue(r[..|r| - 3]) * 60 + DigitsValue(r[|r| - 2..]) == seconds
  {
    var m := Decimal(seconds / 60);
    var d := Decimal(seconds % 60);
    DecimalBelowHundred(seconds % 60);
    var p := PadTwo(d);
    if |d| == 1 {
      assert p == ['0', d[0]];
      assert p[..1] == ['0'];
      assert DigitsValue(p) == DigitValue(d[0]);
      assert d[..0] == [];
      assert DigitsValue(d) == DigitValue(d[0]);
    } else {
      assert p == d;
    }
    var r := FormatLockTime(seconds);
    assert r == m + [':'] + p;
    assert r[..|r| - 3] == m;
    assert r[|r| - 2..] == p;
  }

  // ---------------------------------------------------------------------
  // The screen

  datatype Outcome = Ignored | Buffered | Unlocked | Rejected

  /** The intruder record handleFailure writes for the n-th failure at time `now`. */
  function IntruderEntry(now: nat, failures: int): IntruderLog
  {
    IntruderLog(Decimal(now), now, failures, None, None)
  }

  /** The keypad offers the biometric key only when the device supports it and
      the stored configuration enables it. */
  function BiometricKeyShown(available: bool, config: Option<AuthConfig>): bool
  {
    available && config.Some? && config.value.biometricEnabled
  }

  class LockScreen {
    const store: Storage.Store
    var pin: string
    var error: bool
    var attempts: nat
    var isLocked: bool
    var lockTime: nat
    var biometricAvailable: bool

    function State(): LockState
      reads this
    {
      LockState(pin, error, attempts, isLocked, lockTime)
    }

    ghost predicate Valid()
      reads this
    {
      Inv(State())
    }

    constructor (store: Storage.Store)
      ensures this.store == store && State() == INITIAL && !biometricAvailable && Valid()
    {
      this.store := store;
      pin, error, attempts, isLocked, lockTime := "", false, 0, false, 0;
      biometricAvailable := false;
    }

    /** checkBiometric, run when the screen mounts. */
    method CheckBiometric(isWeb: bool, hasHardware: bool, isEnrolled: bool)
      modifies this`biometricAvailable
      ensures biometricAvailable == (!isWeb && hasHardware && isEnrolled)
    {
      if isWeb {
        biometricAvailable := false;
        return;
      }
      biometricAvailable := hasHardware && isEnrolled;
    }

    /** Whether the keypad shows the biometric key. */
    function ShowBiometric(): bool
      reads this, store
    {
      BiometricKeyShown(biometricAvailable, Storage.ReadAuthConfig(store.entries))
    }

    method HandleSuccess()
      modifies this`attempts
      ensures State() == Succeeded(old(State()))
    {
      attempts := 0;
    }

    method HandleFailure(now: nat)
      modifies this`pin, this`error, this`attempts, this`isLocked, this`lockTime, store
      ensures State() == Failed(old(State()))
      ensures FailureLogs(old(State())) ==> store.entries == old(store.entries)[Storage.IntruderLogsKey :=
        Storage.LogList(Storage.PrependCapped(Storage.ReadIntruderLogs(old(store.entries)), IntruderEntry(now, old(attempts) + 1)))]
      ensures !FailureLogs(old(State())) ==> store.entries == old(store.entries)
    {
      var newAttempts := attempts + 1;
      attempts := newAttempts;
      error := true;
      if newAttempts >= MAX_ATTEMPTS {
        store.AddIntruderLog(now, newAttempts, None, None, now);
        var lockDuration := Min(BASE_LOCK_SECONDS * Pow2(newAttempts / MAX_ATTEMPTS - 1), MAX_LOCK_SECONDS);
        lockTime := lockDuration;
        isLocked := true;
      }
      pin := "";
      error := false;
    }

    /** handleKeyPress; `now` is the clock reading used if an intruder record is written. */
    method KeyPress(key: char, now: nat) returns (outcome: Outcome)
      requires Valid() && IsDigit(key)
      modifies this`pin, this`error, this`attempts, this`isLocked, this`lockTime, store
      ensures Valid()
      ensures State() == Pressed(old(State()), key, Storage.ReadAuthConfig(old(store.entries)))
      ensures outcome == Ignored <==> !TakesKey(old(State()))
      ensures outcome == Buffered <==> TakesKey(old(State())) && |old(pin)| + 1 < PIN_LENGTH
      ensures outcome == Unlocked <==> TakesKey(old(State())) && |old(pin)| + 1 == PIN_LENGTH
                                       && Storage.PinAccepted(Storage.ReadAuthConfig(old(store.entries)), old(pin) + [key])
      ensures outcome == Rejected && FailureLogs(old(State())) ==>
        store.entries == old(store.entries)[Storage.IntruderLogsKey :=
          Storage.LogList(Storage.PrependCapped(Storage.ReadIntruderLogs(old(store.entries)), IntruderEntry(now, old(attempts) + 1)))]
      ensures !(outcome == Rejected && FailureLogs(old(State()))) ==> store.entries == old(store.entries)
    {
      if isLocked || |pin| >= PIN_LENGTH {
        return Ignored;
      }
      var newPin := pin + [key];
      pin := newPin;
      error := false;
      if |newPin| == PIN_LENGTH {
        var isValid := store.VerifyPin(newPin);
        if isValid {
          HandleSuccess();
          outcome := Unlocked;
        } else {
          HandleFailure(now);
          outcome := Rejected;
        }
      } else {
        outcome := Buffered;
      }
    }

    method Delete()
      requires Valid()
      modifies this`pin, this`error
      ensures Valid()
      ensures State() == Deleted(old(State()))
    {
      if !isLocked {
        pin := if pin == [] then [] else pin[..|pin| - 1];
        error := false;
      }
    }

    /** handleBiometric; `success` is the platform's answer to the prompt. */
    method Biometric(isWeb: bool, success: bool) returns (unlocked: bool)
      requires Valid()
      modifies this`attempts
      ensures Valid()
      ensures State() == BiometricResult(old(State()), isWeb, success)
      ensures unlocked <==> !isWeb && !old(isLocked) && success
    {
      if isWeb || isLocked {
        return false;
      }
      if success {
        HandleSuccess();
        return true;
      }
      return false;
    }

    /** One elapsed second: the timer's `setLockTime(lockTime - 1)`, then the
        effect run that the new value triggers. */
    method Tick()
      requires Valid()
      modifies this`lockTime, this`isLocked
      ensures Valid()
      ensures State() == Ticked(old(State()))
    {
      if lockTime > 0 {
        lockTime := lockTime - 1;
      }
      if isLocked && lockTime == 0 {
        isLocked := false;
      }
    }
  }
}

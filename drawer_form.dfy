/**
 * The deposit and withdrawal forms of client/src/pages/VirtualDrawerPage.tsx: reading a count
 * typed into a face-value field (`parseInt(value) || 0`, lines 10-12) and validating a form
 * before it is posted as a ledger entry (lines 49-78).
 */
module DrawerForm {
  import opened Wrappers
  import opened Denominations
  import opened Ledger

  // ---------------------------------------------------------------------------------------
  // parseInt

  /** An ASCII digit, '0' (code 48) to '9' (code 57). */
  predicate IsDigit(c: char) {
    48 <= c as int <= 57
  }

  predicate IsSpace(c: char) {
    c == ' ' || c == '\t' || c == '\n' || c == '\r'
  }

  /** The input without its leading white space: a suffix that is empty or starts with a non-space. */
  function TrimStart(s: string): (r: string)
    ensures |r| <= |s| && r == s[|s| - |r|..]
    ensures r != [] ==> !IsSpace(r[0])
  {
    if s != [] && IsSpace(s[0]) then TrimStart(s[1..]) else s
  }

  /** The length of the run of digits the string starts with. */
  function DigitRun(s: string): (n: nat)
    ensures n <= |s|
    ensures forall i | 0 <= i < n :: IsDigit(s[i])
    ensures n < |s| ==> !IsDigit(s[n])
    ensures (forall i | 0 <= i < |s| :: IsDigit(s[i])) ==> n == |s|
  {
    if s == [] || !IsDigit(s[0]) then 0 else 1 + DigitRun(s[1..])
  }

  /** The decimal number a string of digits spells. */
  function DigitsValue(s: string): nat
    requires forall i | 0 <= i < |s| :: IsDigit(s[i])
  {
    if s == [] then 0 else
      assert IsDigit(s[|s| - 1]);
      10 * DigitsValue(s[..|s| - 1]) + (s[|s| - 1] as int - 48)
  }

  /** A sign the number may start with, and the text after it. */
  function SignOf(t: string): int {
    if t != [] && t[0] == '-' then -1 else 1
  }

  function Unsigned(t: string): (u: string)
    ensures u == t || (t != [] && u == t[1..])
  {
    if t != [] && (t[0] == '-' || t[0] == '+') then t[1..] else t
  }

  /**
   * `parseInt(value)`: leading white space and one sign are skipped and the run of digits after
   * them is read; None stands for NaN, when there is no such digit.
   */
  function ParseInt(value: string): (r: Option<int>)
    ensures r.Some? ==> exists i | 0 <= i < |value| :: IsDigit(value[i])
  {
    var t := TrimStart(value);
    var u := Unsigned(t);
    var n := DigitRun(u);
    if n == 0 then None
    else
      assert value[|value| - |u|] == u[0];
      Some(SignOf(t) * DigitsValue(u[..n]))
  }

  /** White space in front of a text that does not start with any is dropped, and only it. */
  lemma {:induction false} TrimSpaces(ws: string, x: string)
    requires forall i | 0 <= i < |ws| :: IsSpace(ws[i])
    requires x == [] || !IsSpace(x[0])
    ensures TrimStart(ws + x) == x
  {
    if ws == [] {
      assert ws + x == x;
    } else {
      assert (ws + x)[1..] == ws[1..] + x;
      TrimSpaces(ws[1..], x);
    }
  }

  /** The digit run of digits followed by a non-digit is exactly those digits. */
  lemma {:induction false} DigitRunOf(ds: string, rest: string)
    requires forall i | 0 <= i < |ds| :: IsDigit(ds[i])
    requires rest == [] || !IsDigit(rest[0])
    ensures DigitRun(ds + rest) == |ds|
  {
    if ds == [] {
      assert ds + rest == rest;
    } else {
      assert (ds + rest)[1..] == ds[1..] + rest;
      DigitRunOf(ds[1..], rest);
    }
  }

  lemma Regroup(a: string, b: string, c: string, d: string)
    ensures a + b + c + d == a + (b + c + d)
    ensures b + c + d == b + (c + d)
  {
  }

  /** One leading sign is stripped and read; without one, the text is unsigned and positive. */
  lemma SignRead(sign: string, u: string)
    requires sign == "" || sign == "-" || sign == "+"
    requires sign == "" ==> u == [] || (u[0] != '-' && u[0] != '+')
    ensures Unsigned(sign + u) == u
    ensures SignOf(sign + u) == if sign == "-" then -1 else 1
  {
    if sign != "" {
      assert (sign + u)[0] == sign[0] && (sign + u)[1..] == u;
    } else {
      assert sign + u == u;
    }
  }

  /**
   * What `parseInt` reads, whatever the input: white space, at most one sign, then a run of
   * digits ended by a non-digit or the end of the text. The result is that run's value with the
   * sign applied, and NaN exactly when the run is empty.
   */
  lemma ParseIntReads(ws: string, sign: string, ds: string, rest: string)
    requires forall i | 0 <= i < |ws| :: IsSpace(ws[i])
    requires sign == "" || sign == "-" || sign == "+"
    requires sign + ds + rest == [] || !IsSpace((sign + ds + rest)[0])
    requires sign == "" ==> ds + rest == [] || ((ds + rest)[0] != '-' && (ds + rest)[0] != '+')
    requires forall i | 0 <= i < |ds| :: IsDigit(ds[i])
    requires rest == [] || !IsDigit(rest[0])
    ensures ParseInt(ws + sign + ds + rest) ==
      if ds == [] then None else Some((if sign == "-" then -1 else 1) * DigitsValue(ds))
  {
    var v := ws + sign + ds + rest;
    var x := sign + ds + rest;
    var u := ds + rest;
    Regroup(ws, sign, ds, rest);
    TrimSpaces(ws, x);
    SignRead(sign, u);
    DigitRunOf(ds, rest);
    assert u[..|ds|] == ds;
  }

  /** `parseInt(value) || 0`: NaN (and zero) read as zero. */
  function ParseCount(value: string): (r: int)
    ensures (forall i | 0 <= i < |value| :: !IsDigit(value[i])) ==> r == 0
  {
    match ParseInt(value)
    case None => 0
    case Some(v) => v
  }

  /** The decimal digits of a natural number, as a number field shows it. */
  function ShowNat(n: nat): (s: string)
    ensures s != [] && forall i | 0 <= i < |s| :: IsDigit(s[i])
  {
    var c := (48 + n % 10) as char;
    if n < 10 then [c] else ShowNat(n / 10) + [c]
  }

  lemma {:induction false} ShowNatValue(n: nat)
    ensures DigitsValue(ShowNat(n)) == n
  {
    var s := ShowNat(n);
    if n >= 10 {
      ShowNatValue(n / 10);
      assert s[..|s| - 1] == ShowNat(n / 10);
    }
  }

  /** Reading back the digits of a count gives that count. */
  lemma ParseShowNat(n: nat)
    ensures ParseInt(ShowNat(n)) == Some(n)
    ensures ParseCount(ShowNat(n)) == n
  {
    var s := ShowNat(n);
    ShowNatUnpadded(s);
    assert DigitRun(s) == |s|;
    assert s[..|s|] == s;
    ShowNatValue(n);
  }

  /** Text starting with a digit has no white space or sign in front. */
  lemma ShowNatUnpadded(s: string)
    requires s != [] && IsDigit(s[0])
    ensures TrimStart(s) == s && Unsigned(s) == s
  {
    assert !IsSpace(s[0]) && s[0] != '-' && s[0] != '+';
  }

  // ---------------------------------------------------------------------------------------
  // The forms

  /**
   * `handleCountChange(denom, value)`: the face value's count becomes what the text reads as,
   * and every other entry of the form's amount is kept.
   */
  function HandleCountChange(amount: Amount, denom: int, value: string): (r: Amount)
    ensures denom in r && r[denom] == ParseCount(value)
    ensures forall d | d != denom :: (d in r <==> d in amount) && Count(r, d) == Count(amount, d)
  {
    amount[denom := ParseCount(value)]
  }

  /** Typing the digits of a count stores exactly that count. */
  lemma TypedCountIsStored(amount: Amount, denom: int, n: nat)
    ensures Count(HandleCountChange(amount, denom, ShowNat(n)), denom) == n
  {
    ParseShowNat(n);
  }

  /** `filteredAmount`: the entries of the amount whose count is above zero, counts unchanged. */
  function FilterPositive(amount: Amount): (r: Amount)
    ensures forall d :: d in r <==> d in amount && amount[d] > 0
    ensures forall d | d in r :: r[d] == amount[d]
  {
    map d | d in amount && amount[d] > 0 :: amount[d]
  }

  /** Filtering twice is filtering once. */
  lemma FilterPositiveIdempotent(amount: Amount)
    ensures FilterPositive(FilterPositive(amount)) == FilterPositive(amount)
  {
    var once := FilterPositive(amount);
    var twice := FilterPositive(once);
    assert forall d :: d in twice <==> d in once;
  }

  /** Filtering drops only counts that are zero or below, so no cash value is lost from a count of zero. */
  lemma FilterPositiveValue(amount: Amount)
    requires forall d | d in amount :: amount[d] >= 0
    ensures Value(FilterPositive(amount)) == Value(amount)
  {
    ValueOverAgree(Denoms, FilterPositive(amount), amount);
  }

  datatype FormKind = DepositForm | WithdrawalForm

  /** The two forms' fields: a person and the counts typed in. */
  datatype Forms = Forms(depositPerson: string, depositAmount: Amount, withdrawalPerson: string, withdrawalAmount: Amount)

  datatype FormError = NameRequired(kind: FormKind) | NoPositiveCount

  /**
   * `handleSubmit(e, type)` up to the request: it takes the person and amount of the chosen
   * form, refuses an empty name, then refuses an amount with no count above zero, and otherwise
   * posts an entry of the chosen type whose payload is the person and the filtered amount.
   */
  function HandleSubmit(kind: FormKind, forms: Forms): (r: Result<EntryData, FormError>)
    ensures kind == DepositForm ==>
      && (r == Failure(NameRequired(kind)) <==> forms.depositPerson == "")
      && (r == Failure(NoPositiveCount) <==>
            forms.depositPerson != "" && forall d | d in forms.depositAmount :: forms.depositAmount[d] <= 0)
      && (r.Success? ==> r.value == Deposit(forms.depositPerson, FilterPositive(forms.depositAmount)))
    ensures kind == WithdrawalForm ==>
      && (r == Failure(NameRequired(kind)) <==> forms.withdrawalPerson == "")
      && (r == Failure(NoPositiveCount) <==>
            forms.withdrawalPerson != "" && forall d | d in forms.withdrawalAmount :: forms.withdrawalAmount[d] <= 0)
      && (r.Success? ==> r.value == Withdrawal(forms.withdrawalPerson, FilterPositive(forms.withdrawalAmount)))
    ensures r.Failure? ==> r.error == NameRequired(kind) || r.error == NoPositiveCount
  {
    var person := if kind == DepositForm then forms.depositPerson else forms.withdrawalPerson;
    var amount := if kind == DepositForm then forms.depositAmount else forms.withdrawalAmount;
    if person == "" then Failure(NameRequired(kind))
    else
      var filtered := FilterPositive(amount);
      if filtered.Keys == {} then
        assert forall d | d in amount :: amount[d] <= 0;
        Failure(NoPositiveCount)
      else
        NonEmpty(filtered.Keys);
        if kind == DepositForm then Success(Deposit(person, filtered)) else Success(Withdrawal(person, filtered))
  }

  /** A form with a name and at least one count above zero is posted, and only such a form. */
  lemma FilledFormIsPosted(kind: FormKind, forms: Forms)
    ensures var person := if kind == DepositForm then forms.depositPerson else forms.withdrawalPerson;
      var amount := if kind == DepositForm then forms.depositAmount else forms.withdrawalAmount;
      HandleSubmit(kind, forms).Success? <==> person != "" && exists d | d in amount :: amount[d] > 0
  {
  }

  /** A positive count of some listed face value, with no count below zero, gives a positive value. */
  lemma {:induction false} ValueOverPositive(ds: seq<int>, a: Amount, k: int)
    requires AllPositive(ds) && k in ds && Count(a, k) > 0
    requires forall d | d in a :: a[d] >= 0
    ensures ValueOver(ds, a) > 0
  {
    var d := ds[0];
    assert Count(a, d) >= 0;
    assert d > 0;
    if d == k {
      ValueOverNonNegative(ds[1..], a);
    } else {
      assert k in ds[1..];
      ValueOverPositive(ds[1..], a, k);
    }
  }

  lemma {:induction false} ValueOverNonNegative(ds: seq<int>, a: Amount)
    requires AllPositive(ds)
    requires forall d | d in a :: a[d] >= 0
    ensures ValueOver(ds, a) >= 0
  {
    if ds != [] {
      assert ds[0] > 0 && Count(a, ds[0]) >= 0;
      ValueOverNonNegative(ds[1..], a);
    }
  }

  /**
   * What an accepted form posts moves cash the server can book: its counts are keyed by face
   * values, are all above zero, add up to a positive value, and change each count by the typed
   * count when that was above zero (added for a deposit, taken away for a withdrawal).
   */
  lemma SubmittedEntryMovesCash(kind: FormKind, forms: Forms)
    requires KeysIn(forms.depositAmount, Denoms) && KeysIn(forms.withdrawalAmount, Denoms)
    requires HandleSubmit(kind, forms).Success?
    ensures var data := HandleSubmit(kind, forms).value;
      var typed := if kind == DepositForm then forms.depositAmount else forms.withdrawalAmount;
      var sign := if kind == DepositForm then 1 else -1;
      && DataKeysIn(data, Denoms)
      && Value(data.amount) > 0
      && forall d :: OwnDelta(data, d) == sign * (if Count(typed, d) > 0 then Count(typed, d) else 0)
  {
    var data := HandleSubmit(kind, forms).value;
    var typed := if kind == DepositForm then forms.depositAmount else forms.withdrawalAmount;
    var filtered := FilterPositive(typed);
    assert data.amount == filtered;
    var k :| k in typed && typed[k] > 0;
    DenomsFacts();
    ValueOverPositive(Denoms, filtered, k);
  }
}

/** The transaction parser of the mobile app's utilities (mobile-app/utils/parser.js): the amount,
    the bank, the direction and a description of a transaction, read from the text of an SMS. */
module TxParser {
  import opened Wrappers
  import opened Text
  import opened Scan
  import opened Decimal

  const UnknownBank := "Unknown Bank"

  // ----------------------------------------------------------------------------------------
  // extractAmount

  /** What `extractAmount` returns: `null`, `NaN`, or a number. */
  datatype AmountResult = NoMatch | NotANumber | Number(value: real)

  /** `parseFloat(capture.replace(/,/g, ''))`. */
  function FromCapture(capture: string): AmountResult {
    match ParseFloat(StripCommas(capture))
    case None => NotANumber
    case Some(v) => Number(v)
  }

  /** `\s?([\d,]+(?:\.\d{2})?)` from index `p`: one optional whitespace character, then the
      amount. Giving the whitespace back cannot help, since the amount cannot start with it. */
  function OptionalSpaceAmount(s: string, p: nat): Option<string> {
    if p > |s| then None
    else GroupedAmount(s, if p < |s| && IsSpace(s[p]) then p + 1 else p)
  }

  /** `/(?:NGN|N)\s?([\d,]+(?:\.\d{2})?)/i` at index `i`. */
  function NairaAt(s: string, i: nat): Option<string> {
    FirstAlt(s, i, ["ngn", "n"], (p: nat) => OptionalSpaceAmount(s, p))
  }

  /** `/\$\s?([\d,]+(?:\.\d{2})?)/` at index `i`. */
  function DollarAt(s: string, i: nat): Option<string> {
    if i < |s| && s[i] == '$' then OptionalSpaceAmount(s, i + 1) else None
  }

  function NairaCapture(text: string): Option<string> {
    Leftmost(text, (i: nat) => NairaAt(text, i), 0)
  }

  function DollarCapture(text: string): Option<string> {
    Leftmost(text, (i: nat) => DollarAt(text, i), 0)
  }

  /** `/([\d,]+\.\d{2})/`. */
  function PlainCapture(text: string): Option<string> {
    Leftmost(text, (i: nat) => PointAmount(text, i), 0)
  }

  /** `extractAmount(text)`: the first of the three patterns that matches decides, even when its
      capture is not a number. */
  function ExtractAmount(text: string): (r: AmountResult)
    ensures r.NoMatch? <==> NairaCapture(text).None? && DollarCapture(text).None? && PlainCapture(text).None?
  {
    match NairaCapture(text)
    case Some(c) => FromCapture(c)
    case None =>
      match DollarCapture(text)
      case Some(c) => FromCapture(c)
      case None =>
        match PlainCapture(text)
        case Some(c) => FromCapture(c)
        case None => NoMatch
  }

  /** A match of an earlier pattern is never overruled: when the naira pattern matches, the
      result comes from its capture alone, be it a number or not, whatever dollar amounts the
      text holds. */
  lemma NairaDecides(text: string)
    requires NairaCapture(text).Some?
    ensures ExtractAmount(text) == FromCapture(NairaCapture(text).value)
    ensures ExtractAmount(text) != NoMatch
  {
  }

  /** Without a naira amount, a dollar match decides over any plain number in the text. */
  lemma DollarDecides(text: string)
    requires NairaCapture(text).None? && DollarCapture(text).Some?
    ensures ExtractAmount(text) == FromCapture(DollarCapture(text).value)
    ensures ExtractAmount(text) != NoMatch
  {
  }

  /** The plain-number pattern is consulted only when neither currency pattern matches. */
  lemma PlainDecides(text: string)
    requires NairaCapture(text).None? && DollarCapture(text).None? && PlainCapture(text).Some?
    ensures ExtractAmount(text) == FromCapture(PlainCapture(text).value)
    ensures ExtractAmount(text) != NoMatch
  {
  }

  // ----------------------------------------------------------------------------------------
  // detectBank

  /** `NIGERIAN_BANKS`, in order. */
  const NigerianBanks: seq<string> := [
    "GTBank", "GTB", "Guaranty Trust Bank",
    "Access Bank", "Access",
    "Zenith Bank", "Zenith",
    "First Bank", "FirstBank",
    "UBA", "United Bank for Africa",
    "Stanbic IBTC", "Stanbic",
    "Kuda Bank", "Kuda",
    "OPay",
    "Moniepoint",
    "PalmPay"
  ]

  /** The names the standardisation chain returns. */
  const StandardNames: seq<string> := [
    "GTBank", "Access Bank", "Zenith Bank", "First Bank", "UBA", "Stanbic IBTC", "Kuda Bank",
    "OPay", "Moniepoint", "PalmPay"
  ]

  /** The chain of case-sensitive `includes` tests that turns a list entry into a standard name;
      an entry none of them recognises is returned as it is. */
  function Standardize(bank: string): (r: string)
    ensures r in StandardNames || r == bank
  {
    if Includes(bank, "GTB") || Includes(bank, "GTBank") then "GTBank"
    else if Includes(bank, "Access") then "Access Bank"
    else if Includes(bank, "Zenith") then "Zenith Bank"
    else if Includes(bank, "First") then "First Bank"
    else if Includes(bank, "UBA") then "UBA"
    else if Includes(bank, "Stanbic") then "Stanbic IBTC"
    else if Includes(bank, "Kuda") then "Kuda Bank"
    else if Includes(bank, "OPay") then "OPay"
    else if Includes(bank, "Moniepoint") then "Moniepoint"
    else if Includes(bank, "PalmPay") then "PalmPay"
    else bank
  }

  /** The entry at index `k` occurs in the text, ignoring case. */
  predicate Mentions(text: string, k: nat)
    requires k < |NigerianBanks|
  {
    Includes(Lower(text), Lower(NigerianBanks[k]))
  }

  /** The bank named by the first entry from index `k` on that the text mentions. */
  function BankFrom(text: string, k: nat): (r: string)
    ensures r == UnknownBank <==> forall m | k <= m < |NigerianBanks| :: !Mentions(text, m)
    ensures r != UnknownBank ==>
      exists m | k <= m < |NigerianBanks| ::
        Mentions(text, m) && r == Standardize(NigerianBanks[m])
        && forall j | k <= j < m :: !Mentions(text, j)
    decreases |NigerianBanks| - k
  {
    if k >= |NigerianBanks| then UnknownBank
    else if Mentions(text, k) then Standardize(NigerianBanks[k])
    else
      var r := BankFrom(text, k + 1);
      BankFromStep(text, k, r);
      r
  }

  /** An entry the text does not mention passes the answer for the entries after it through. */
  lemma BankFromStep(text: string, k: nat, r: string)
    requires k < |NigerianBanks| && !Mentions(text, k)
    requires r == UnknownBank <==> forall m | k + 1 <= m < |NigerianBanks| :: !Mentions(text, m)
    requires r != UnknownBank ==>
      exists m | k + 1 <= m < |NigerianBanks| ::
        Mentions(text, m) && r == Standardize(NigerianBanks[m])
        && forall j | k + 1 <= j < m :: !Mentions(text, j)
    ensures r == UnknownBank <==> forall m | k <= m < |NigerianBanks| :: !Mentions(text, m)
    ensures r != UnknownBank ==>
      exists m | k <= m < |NigerianBanks| ::
        Mentions(text, m) && r == Standardize(NigerianBanks[m])
        && forall j | k <= j < m :: !Mentions(text, j)
  {
    if r != UnknownBank {
      var m :| k + 1 <= m < |NigerianBanks| && Mentions(text, m) && r == Standardize(NigerianBanks[m])
        && forall j | k + 1 <= j < m :: !Mentions(text, j);
      assert forall j | k <= j < m :: !Mentions(text, j);
    }
  }

  function DetectedBank(text: string): (r: string)
    ensures r == UnknownBank <==> forall m | 0 <= m < |NigerianBanks| :: !Mentions(text, m)
    ensures r != UnknownBank ==>
      exists m | 0 <= m < |NigerianBanks| ::
        Mentions(text, m) && r == Standardize(NigerianBanks[m])
        && forall j | 0 <= j < m :: !Mentions(text, j)
  {
    BankFrom(text, 0)
  }

  /** `detectBank(text)`. */
  method DetectBank(text: string) returns (bank: string)
    ensures bank == DetectedBank(text)
  {
    var lowerText := Lower(text);
    for k := 0 to |NigerianBanks|
      invariant BankFrom(text, k) == DetectedBank(text)
    {
      var entry := NigerianBanks[k];
      if Includes(lowerText, Lower(entry)) {
        bank := Standardize(entry);
        return;
      }
    }
    return UnknownBank;
  }

  /** The result is a standard name, a list entry the chain does not recognise, or the default. */
  lemma DetectedBankIsKnown(text: string)
    ensures var r := DetectedBank(text); r == UnknownBank || r in StandardNames || r in NigerianBanks
  {
  }

  /** Any text that mentions `gtb`, in any case, is a GTBank message: both entries that can match
      first standardise to `GTBank`. */
  lemma GtbIsGTBank(text: string)
    requires Includes(Lower(text), "gtb")
    ensures DetectedBank(text) == "GTBank"
  {
    assert At("GTBank", 0, "GTB");
    assert At("GTB", 0, "GTB");
    assert Lower("GTB") == "gtb" by {
      assert Lower("GTB")[0] == 'g' && Lower("GTB")[1] == 't' && Lower("GTB")[2] == 'b';
    }
    assert Mentions(text, 1);
  }

  // ----------------------------------------------------------------------------------------
  // isCredit

  const CreditKeywords: seq<string> := [
    "credit", "credited", "received", "deposit", "incoming", "transfer from", "payment from",
    "refund", "cashback"
  ]

  const DebitKeywords: seq<string> := [
    "debit", "debited", "withdrawal", "sent", "outgoing", "transfer to", "payment to", "purchase",
    "pos", "atm"
  ]

  predicate HasCreditWord(text: string) {
    exists k | 0 <= k < |CreditKeywords| :: Includes(Lower(text), CreditKeywords[k])
  }

  predicate HasDebitWord(text: string) {
    exists k | 0 <= k < |DebitKeywords| :: Includes(Lower(text), DebitKeywords[k])
  }

  /** The tie-break: the user's name is given and mentioned, together with `from` or `received`. */
  predicate NamedWithFrom(text: string, userBankName: string) {
    userBankName != "" && Includes(Lower(text), Lower(userBankName))
    && (Includes(Lower(text), "from") || Includes(Lower(text), "received"))
  }

  /** `isCredit(text, userBankName)`. */
  function IsCredit(text: string, userBankName: string): (credit: bool)
    ensures HasCreditWord(text) && !HasDebitWord(text) ==> credit
    ensures HasDebitWord(text) && !HasCreditWord(text) ==> !credit
    ensures HasCreditWord(text) == HasDebitWord(text) ==> (credit <==> NamedWithFrom(text, userBankName))
  {
    var hasCredit := HasCreditWord(text);
    var hasDebit := HasDebitWord(text);
    if hasCredit && !hasDebit then true
    else if hasDebit && !hasCredit then false
    else NamedWithFrom(text, userBankName)
  }

  /** `deposit` contains the debit keyword `pos`: a text that says `deposit` always has a debit
      word as well as a credit word, so it is never credit on its keywords alone. */
  lemma DepositAlsoReadsAsDebit(text: string, userBankName: string)
    requires Includes(Lower(text), "deposit")
    ensures HasCreditWord(text) && HasDebitWord(text)
    ensures IsCredit(text, userBankName) <==> NamedWithFrom(text, userBankName)
  {
    assert CreditKeywords[3] == "deposit";
    assert At("deposit", 2, "pos");
    IncludesInside(Lower(text), "deposit", "pos", 2);
    assert DebitKeywords[8] == "pos";
  }

  /** Without the user's name, only a credit word with no debit word makes a credit. */
  lemma CreditNeedsNameOrOneSidedKeywords(text: string)
    ensures IsCredit(text, "") <==> HasCreditWord(text) && !HasDebitWord(text)
  {
  }

  // ----------------------------------------------------------------------------------------
  // extractDescription: the footers

  /** The footers `extractDescription` removes, in the order it removes them. */
  datatype Footer =
    | DialCode       // /Dial \*\d+#.*/gi
    | Enquiries      // /For.*enquir.*/gi
    | CustomerCare   // /Call.*customer.*/gi
    | ChargesApply   // /Charges may apply.*/gi
    | ThankYou       // /Thank you.*/gi

  const Footers: seq<Footer> := [DialCode, Enquiries, CustomerCare, ChargesApply, ThankYou]

  /** `w1.*w2` on one line: `w2` occurs after index `p` and before the end of its line. */
  predicate LaterOnLine(s: string, p: nat, w2: string)
    requires p <= |s|
  {
    exists j | p <= j && j + |w2| <= LineEnd(s, p) :: AtCI(s, j, w2)
  }

  /** Where a match of `footer` that starts at index `i` ends: every footer runs to the end of
      its line. */
  function FooterEnd(footer: Footer, s: string, i: nat): (e: Option<nat>)
    ensures e.Some? ==> i < e.value <= |s|
  {
    match footer
    case DialCode =>
      if AtCI(s, i, "dial ") && i + 6 < |s| && s[i + 5] == '*' then
        var d := Span(s, i + 6, Digit);
        if d > i + 6 && d < |s| && s[d] == '#' then Some(LineEnd(s, d + 1)) else None
      else None
    case Enquiries =>
      if AtCI(s, i, "for") && LaterOnLine(s, i + 3, "enquir") then Some(LineEnd(s, i + 3)) else None
    case CustomerCare =>
      if AtCI(s, i, "call") && LaterOnLine(s, i + 4, "customer") then Some(LineEnd(s, i + 4)) else None
    case ChargesApply =>
      if AtCI(s, i, "charges may apply") then Some(LineEnd(s, i + 17)) else None
    case ThankYou =>
      if AtCI(s, i, "thank you") then Some(LineEnd(s, i + 9)) else None
  }

  /** The leftmost match of `footer` from index `i` on: where it starts and where it ends. */
  function NextFooter(footer: Footer, s: string, i: nat): (r: Option<(nat, nat)>)
    ensures r.Some? ==> i <= r.value.0 < r.value.1 <= |s| && FooterEnd(footer, s, r.value.0) == Some(r.value.1)
    ensures r.None? <==> forall j | i <= j <= |s| :: FooterEnd(footer, s, j).None?
    decreases |s| + 1 - i
  {
    if i > |s| then None
    else match FooterEnd(footer, s, i)
      case Some(e) => Some((i, e))
      case None => NextFooter(footer, s, i + 1)
  }

  /** `s.replace(footerRegex, '')` applied from index `from` on: each match is cut out and the
      search resumes where the match ended. */
  function RemoveFrom(footer: Footer, s: string, from: nat): (r: string)
    requires from <= |s|
    ensures |r| <= |s| - from
    decreases |s| - from
  {
    match NextFooter(footer, s, from)
    case None => s[from..]
    case Some((i, e)) => s[from..i] + RemoveFrom(footer, s, e)
  }

  /** A footer that does not occur leaves the text as it is, and one that occurs makes it
      shorter: the text is unchanged exactly when the footer is absent. */
  lemma {:induction false} RemoveUnchangedIffAbsent(footer: Footer, s: string, from: nat)
    requires from <= |s|
    ensures RemoveFrom(footer, s, from) == s[from..]
        <==> forall j | from <= j <= |s| :: FooterEnd(footer, s, j).None?
  {
    match NextFooter(footer, s, from)
    case None =>
    case Some((i, e)) =>
      assert |RemoveFrom(footer, s, from)| <= (i - from) + (|s| - e);
  }

  /** The text with every footer cut out, in the order of `Footers`, then trimmed. */
  function StripFooters(text: string): (r: string)
    ensures Trim(r) == r
  {
    var afterDial := RemoveFrom(DialCode, text, 0);
    var afterEnquiries := RemoveFrom(Enquiries, afterDial, 0);
    var afterCustomer := RemoveFrom(CustomerCare, afterEnquiries, 0);
    var afterCharges := RemoveFrom(ChargesApply, afterCustomer, 0);
    var afterThanks := RemoveFrom(ThankYou, afterCharges, 0);
    TrimIdempotent(afterThanks);
    Trim(afterThanks)
  }

  // ----------------------------------------------------------------------------------------
  // extractDescription: the patterns

  const LabelWords: seq<string> := ["desc", "description", "narration", "details", "remark"]

  /** `(?:Desc|Description|Narration|Details|Remark):\s*(.+?)(?:\.|Bal|Account|$)` at index `i`:
      one of the label words in any case, then `AfterLabel`. */
  function LabelAt(s: string, i: nat): (r: Option<string>)
    ensures r.Some? ==> |r.value| > 0
  {
    FirstAlt(s, i, LabelWords, LabelRest(s))
  }

  function LabelRest(s: string): nat -> Option<string> {
    (p: nat) => AfterLabel(s, p)
  }

  /** `:\s*(.+?)(?:\.|Bal|Account|$)` at index `p`, right after a label word: nothing matches
      unless a colon stands there, and the capture is never empty. */
  function AfterLabel(s: string, p: nat): (r: Option<string>)
    ensures r.Some? ==> p < |s| && s[p] == ':' && |r.value| > 0
  {
    if p < |s| && s[p] == ':' then
      LazyCaptureFrom(s, p + 1, Span(s, p + 1, Space), WordOrEnd([".", "bal", "account"]))
    else None
  }

  /** `from\s+(.+?)\s+to` at index `i`: a capture needs "from", in any case, and white space
      after it. */
  function FromToAt(s: string, i: nat): (r: Option<string>)
    ensures r.Some? ==> |r.value| > 0 && AtCI(s, i, "from") && i + 4 < |s| && InClass(s[i + 4], Space)
  {
    if AtCI(s, i, "from") then
      var e := Span(s, i + 4, Space);
      if e == i + 4 then None else LazyCaptureFrom(s, i + 5, e, SpaceThen("to"))
    else None
  }

  /** `s.split(/[.\n]/)[0]`: the text up to its first full stop or line feed. */
  function FirstPiece(s: string): (r: string)
    ensures |r| <= |s| && r == s[..|r|]
    ensures '.' !in r && '\n' !in r
    ensures |r| < |s| ==> s[|r|] == '.' || s[|r|] == '\n'
  {
    if |s| == 0 || s[0] == '.' || s[0] == '\n' then [] else [s[0]] + FirstPiece(s[1..])
  }

  /** The leftmost capture of the label pattern in the text without footers. */
  function LabelCapture(text: string): Option<string> {
    var cleanText := StripFooters(text);
    Leftmost(cleanText, (i: nat) => LabelAt(cleanText, i), 0)
  }

  /** The leftmost capture of the from/to pattern in the text without footers. */
  function FromToCapture(text: string): Option<string> {
    var cleanText := StripFooters(text);
    Leftmost(cleanText, (i: nat) => FromToAt(cleanText, i), 0)
  }

  /** `extractDescription(text)`: the trimmed capture of the label pattern, else of the from/to
      pattern, else the first sentence cut to 100 characters, all on the text without footers. */
  function ExtractDescription(text: string): (r: string)
    ensures Trim(r) == r
    ensures LabelCapture(text).None? && FromToCapture(text).None? ==> |r| <= 100 && '.' !in r && '\n' !in r
  {
    var cleanText := StripFooters(text);
    match LabelCapture(text)
    case Some(c) => TrimIdempotent(c); Trim(c)
    case None =>
      match FromToCapture(text)
      case Some(c) => TrimIdempotent(c); Trim(c)
      case None =>
        var firstSentence := Take(FirstPiece(cleanText), 100);
        TrimIdempotent(firstSentence);
        Trim(firstSentence)
  }

  /** A label capture decides, whatever the from/to pattern would capture. */
  lemma LabelDecides(text: string)
    requires LabelCapture(text).Some?
    ensures ExtractDescription(text) == Trim(LabelCapture(text).value)
  {
  }

  /** Without a label capture, a from/to capture decides over the first sentence. */
  lemma FromToDecides(text: string)
    requires LabelCapture(text).None? && FromToCapture(text).Some?
    ensures ExtractDescription(text) == Trim(FromToCapture(text).value)
  {
  }

  /** With neither capture, the description is the first sentence of the text without footers:
      its first 100 characters, or all of it when shorter, trimmed. */
  lemma FirstSentenceFallback(text: string)
    requires LabelCapture(text).None? && FromToCapture(text).None?
    ensures var sentence := FirstPiece(StripFooters(text));
      && ExtractDescription(text) == Trim(Take(sentence, 100))
      && (|sentence| <= 100 ==> ExtractDescription(text) == Trim(sentence))
      && (|sentence| > 100 ==> ExtractDescription(text) == Trim(sentence[..100]))
  {
  }

  // ----------------------------------------------------------------------------------------
  // parseTransactionFromText

  datatype Transaction = Transaction(amount: real, bank: string, isCredit: bool, description: string, rawText: string)

  /** `parseTransactionFromText(text, userBankName)`. */
  function ParseTransactionFromText(text: string, userBankName: string): (r: Option<Transaction>)
    ensures r.Some? <==> text != "" && ExtractAmount(text).Number? && ExtractAmount(text).value > 0.0
    ensures r.Some? ==> r.value.amount == ExtractAmount(text).value && r.value.amount > 0.0
    ensures r.Some? ==> r.value.rawText == text
    ensures r.Some? ==> (r.value.bank == UnknownBank || r.value.bank in StandardNames || r.value.bank in NigerianBanks)
    ensures r.Some? ==> r.value.isCredit == IsCredit(text, userBankName)
    ensures r.Some? ==> Trim(r.value.description) == r.value.description
    ensures r.Some? ==> r.value.bank == DetectedBank(text)
    ensures r.Some? ==> r.value.description == ExtractDescription(text)
  {
    if text == "" then None
    else
      var amount := ExtractAmount(text);
      if !amount.Number? || amount.value <= 0.0 then None
      else
        DetectedBankIsKnown(text);
        Some(Transaction(amount.value, DetectedBank(text), IsCredit(text, userBankName), ExtractDescription(text), text))
  }
}

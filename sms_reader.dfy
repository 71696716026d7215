/** `mobile-app/services/smsReader.js`: which senders count as banks, which bank messages become
    new transactions, and the counters of an import run. */
module SmsReader {
  import opened Wrappers
  import opened Text
  import TxParser

  // ----------------------------------------------------------------------------------------
  // isBankSender

  /** `BANK_SENDERS`: the sender IDs Nigerian banks text from. */
  const BankSenders: seq<string> := [
    "GTBank", "GTBANK", "AccessBank", "ACCESSBANK", "ZenithBank", "ZENITHBANK", "FirstBank",
    "FIRSTBANK", "UBA", "StanbicIBTC", "STANBICIBTC", "Kuda", "KUDA", "KudaBank", "OPAY", "OPay",
    "Moniepoint", "MONIEPOINT", "PalmPay", "PALMPAY"
  ]

  /** The characters `[A-Z0-9]` matches. */
  predicate IsUpperAlnum(c: char) {
    IsUpperAscii(c) || IsDigit(c)
  }

  /** `s.toUpperCase().replace(/[^A-Z0-9]/g, '')`: upper case, then only letters and digits
      kept, in their order. */
  function Normalize(s: string): (r: string)
    ensures |r| <= |s|
    ensures forall k | 0 <= k < |r| :: IsUpperAlnum(r[k])
  {
    if s == [] then []
    else
      var c := UpperChar(s[0]);
      (if IsUpperAlnum(c) then [c] else []) + Normalize(s[1..])
  }

  /** Normalizing twice changes nothing more. */
  lemma {:induction false} NormalizeIdempotent(s: string)
    ensures Normalize(Normalize(s)) == Normalize(s)
  {
    if s != [] {
      NormalizeIdempotent(s[1..]);
      NormalizeFixes(Normalize(s));
    }
  }

  /** A text of upper-case letters and digits is its own normal form. */
  lemma {:induction false} NormalizeFixes(s: string)
    requires forall k | 0 <= k < |s| :: IsUpperAlnum(s[k])
    ensures Normalize(s) == s
  {
    if s != [] {
      NormalizeFixes(s[1..]);
      assert [s[0]] + s[1..] == s;
    }
  }

  /** The normal form does not see letter case. */
  lemma {:induction false} NormalizeIgnoresCase(s: string)
    ensures Normalize(Lower(s)) == Normalize(s) == Normalize(Upper(s))
  {
    if s != [] {
      NormalizeIgnoresCase(s[1..]);
      assert Lower(s)[1..] == Lower(s[1..]);
      assert Upper(s)[1..] == Upper(s[1..]);
      assert UpperChar(LowerChar(s[0])) == UpperChar(s[0]);
    }
  }

  /** The normal form does not see a character other than a letter or a digit, wherever it
      stands. */
  lemma {:induction false} NormalizeDropsPunctuation(a: string, c: char, b: string)
    requires !IsUpperAlnum(UpperChar(c))
    ensures Normalize(a + [c] + b) == Normalize(a + b)
    decreases |a|
  {
    if a == [] {
      assert a + [c] + b == [c] + b;
      assert ([c] + b)[1..] == b;
      assert a + b == b;
      assert Normalize([c] + b) == [] + Normalize(b);
    } else {
      assert (a + [c] + b)[1..] == a[1..] + [c] + b;
      assert (a + b)[1..] == a[1..] + b;
      NormalizeDropsPunctuation(a[1..], c, b);
    }
  }

  /** `isBankSender(sender)`: false for an empty sender; otherwise whether the sender's normal
      form contains the normal form of some listed sender ID. */
  predicate IsBankSender(sender: string)
    ensures (exists k | 0 <= k < |BankSenders| :: sender == BankSenders[k]) ==> IsBankSender(sender)
  {
    ListedSendersMatchThemselves();
    sender != "" && exists k | 0 <= k < |BankSenders| :: Includes(Normalize(sender), Normalize(BankSenders[k]))
  }

  /** Every listed ID is non-empty and its normal form contains itself. */
  lemma ListedSendersMatchThemselves()
    ensures forall k | 0 <= k < |BankSenders| ::
      BankSenders[k] != "" && Includes(Normalize(BankSenders[k]), Normalize(BankSenders[k]))
  {
    forall k | 0 <= k < |BankSenders|
      ensures Includes(Normalize(BankSenders[k]), Normalize(BankSenders[k]))
    {
      assert At(Normalize(BankSenders[k]), 0, Normalize(BankSenders[k]));
    }
  }

  /** Two senders with the same normal form get the same answer: `isBankSender` is blind to
      case and punctuation. */
  lemma SameNormalFormSameAnswer(a: string, b: string)
    requires a != "" && b != ""
    requires Normalize(a) == Normalize(b)
    ensures IsBankSender(a) <==> IsBankSender(b)
  {
  }

  /** Upper-casing, lower-casing or adding punctuation to a sender never changes the answer. */
  lemma BankSenderIgnoresCaseAndPunctuation(a: string, c: char, b: string)
    requires a + b != ""
    requires !IsUpperAlnum(UpperChar(c))
    ensures IsBankSender(a + [c] + b) <==> IsBankSender(a + b)
    ensures IsBankSender(Lower(a + b)) <==> IsBankSender(a + b)
    ensures IsBankSender(Upper(a + b)) <==> IsBankSender(a + b)
  {
    NormalizeDropsPunctuation(a, c, b);
    NormalizeIgnoresCase(a + b);
    assert |a + [c] + b| > 0;
    SameNormalFormSameAnswer(a + [c] + b, a + b);
    SameNormalFormSameAnswer(Lower(a + b), a + b);
    SameNormalFormSameAnswer(Upper(a + b), a + b);
  }

  /** A sender that merely contains a listed ID, in any case and split by any punctuation, is a
      bank: "gt-bank alerts" is one. */
  lemma ContainedIdIsBank(sender: string, k: nat)
    requires k < |BankSenders|
    requires Includes(Normalize(sender), Normalize(BankSenders[k]))
    requires sender != ""
    ensures IsBankSender(sender)
  {
  }

  // ----------------------------------------------------------------------------------------
  // processBankSMS

  /** A message from the inbox. `date` is the day the message arrived, as `toISOString` gives
      it; reading the clock and formatting the date are not part of this model. */
  datatype Sms = Sms(body: string, address: string, date: string)

  /** The transaction object `processBankSMS` sends to the server. */
  datatype NewTransaction = NewTransaction(date: string, amount: real, description: string, bank: string, rawSms: string)

  /** What `processBankSMS` does before any network call: return null, or send a transaction. */
  datatype Prepared = Declined | Send(tx: NewTransaction)

  /** `processBankSMS(sms, userBankName)` up to the server call: null when the body does not
      parse or parses as not a credit, otherwise the parsed figures with the body and date. */
  function PrepareBankSms(sms: Sms, userBankName: string): (r: Prepared)
    ensures r.Declined? <==>
      || TxParser.ParseTransactionFromText(sms.body, userBankName).None?
      || !TxParser.ParseTransactionFromText(sms.body, userBankName).value.isCredit
    ensures r.Send? ==> r.tx.rawSms == sms.body && r.tx.date == sms.date && r.tx.amount > 0.0
    ensures r.Send? ==> TxParser.IsCredit(sms.body, userBankName)
    ensures r.Send? ==>
      var parsed := TxParser.ParseTransactionFromText(sms.body, userBankName).value;
      r.tx.amount == parsed.amount && r.tx.description == parsed.description && r.tx.bank == parsed.bank
  {
    match TxParser.ParseTransactionFromText(sms.body, userBankName)
    case None => Declined
    case Some(parsed) =>
      if !parsed.isCredit then Declined
      else Send(NewTransaction(sms.date, parsed.amount, parsed.description, parsed.bank, sms.body))
  }

  /** An empty body never reaches the server. */
  lemma EmptyBodyDeclined(sms: Sms, userBankName: string)
    requires sms.body == ""
    ensures PrepareBankSms(sms, userBankName) == Declined
  {
  }

  // ----------------------------------------------------------------------------------------
  // The tally of scanAndImportTransactions

  /** How the server call went: a truthy `response.data`, a falsy one, or a thrown error. */
  datatype Reply = Created | EmptyReply | Failed

  /** The branch of the loop body one message ends in. */
  datatype Outcome = Imported | Skipped | Errored

  /** `processBankSMS` returned a transaction, returned null or a falsy reply, or threw. */
  function OutcomeOf(prepared: Prepared, reply: Reply): (r: Outcome)
    ensures prepared.Declined? ==> r == Skipped
    ensures r == Imported <==> prepared.Send? && reply == Created
    ensures r == Errored <==> prepared.Send? && reply == Failed
  {
    match prepared
    case Declined => Skipped
    case Send(_) =>
      match reply
      case Created => Imported
      case EmptyReply => Skipped
      case Failed => Errored
  }

  /** How many of `outcomes` are `o`. */
  function Count(outcomes: seq<Outcome>, o: Outcome): (n: nat)
    ensures n <= |outcomes|
  {
    if outcomes == [] then 0
    else Count(outcomes[..|outcomes| - 1], o) + (if outcomes[|outcomes| - 1] == o then 1 else 0)
  }

  /** Counting one more outcome of the list adds one to its kind's count. */
  predicate CountsStep(outcomes: seq<Outcome>, i: nat)
    requires i < |outcomes|
  {
    forall o :: Count(outcomes[..i + 1], o) == Count(outcomes[..i], o) + (if outcomes[i] == o then 1 else 0)
  }

  lemma CountStep(outcomes: seq<Outcome>, i: nat)
    requires i < |outcomes|
    ensures CountsStep(outcomes, i)
  {
    assert outcomes[..i + 1][..i] == outcomes[..i];
  }

  /** Every outcome is one of the three kinds, so the three counts add up to the length. */
  lemma {:induction false} CountsPartition(outcomes: seq<Outcome>)
    ensures Count(outcomes, Imported) + Count(outcomes, Skipped) + Count(outcomes, Errored) == |outcomes|
  {
    if outcomes != [] {
      CountsPartition(outcomes[..|outcomes| - 1]);
    }
  }

  /** The `results` object the scan fills in. */
  class ScanResults {
    var total: nat
    var processed: nat
    var imported: nat
    var skipped: nat
    var errors: nat

    /** Every message handled so far is counted once, under exactly one outcome. */
    predicate Valid()
      reads this
    {
      processed == imported + skipped + errors && processed <= total
    }

    constructor (total: nat)
      ensures this.total == total && processed == 0 && imported == 0 && skipped == 0 && errors == 0
      ensures Valid()
    {
      this.total := total;
      processed := 0;
      imported := 0;
      skipped := 0;
      errors := 0;
    }

    /** One pass of the loop body: the counter of the outcome and `processed` go up by one. */
    method Record(outcome: Outcome)
      requires Valid() && processed < total
      modifies this
      ensures Valid()
      ensures total == old(total) && processed == old(processed) + 1
      ensures imported == old(imported) + (if outcome == Imported then 1 else 0)
      ensures skipped == old(skipped) + (if outcome == Skipped then 1 else 0)
      ensures errors == old(errors) + (if outcome == Errored then 1 else 0)
    {
      match outcome {
        case Imported => imported := imported + 1;
        case Skipped => skipped := skipped + 1;
        case Errored => errors := errors + 1;
      }
      processed := processed + 1;
    }
  }

  /** The outcome of each message in turn, given how each server call went. */
  function Outcomes(messages: seq<Sms>, userBankName: string, replies: seq<Reply>): (r: seq<Outcome>)
    requires |replies| == |messages|
    ensures |r| == |messages|
    ensures forall k | 0 <= k < |r| :: r[k] == OutcomeOf(PrepareBankSms(messages[k], userBankName), replies[k])
  {
    seq(|messages|, k requires 0 <= k < |messages| => OutcomeOf(PrepareBankSms(messages[k], userBankName), replies[k]))
  }

  /** `scanAndImportTransactions` over the bank messages read from the inbox, with the server's
      reply to each call given as `replies`: at the end every message has been processed, and
      each counter holds the number of messages that ended its way. */
  method ScanAndImport(messages: seq<Sms>, userBankName: string, replies: seq<Reply>) returns (results: ScanResults)
    requires |replies| == |messages|
    ensures fresh(results) && results.Valid()
    ensures results.total == |messages| && results.processed == results.total
    ensures results.imported == Count(Outcomes(messages, userBankName, replies), Imported)
    ensures results.skipped == Count(Outcomes(messages, userBankName, replies), Skipped)
    ensures results.errors == Count(Outcomes(messages, userBankName, replies), Errored)
  {
    var outcomes := Outcomes(messages, userBankName, replies);
    results := Tally(outcomes);
  }

  /** The loop of `scanAndImportTransactions`, given where each message ended: one `Record` per
      message, in order. */
  method Tally(outcomes: seq<Outcome>) returns (results: ScanResults)
    ensures fresh(results) && results.Valid()
    ensures results.total == |outcomes| && results.processed == results.total
    ensures results.imported == Count(outcomes, Imported)
    ensures results.skipped == Count(outcomes, Skipped)
    ensures results.errors == Count(outcomes, Errored)
  {
    results := new ScanResults(|outcomes|);
    for i := 0 to |outcomes|
      invariant results.Valid() && results.total == |outcomes| && results.processed == i
      invariant results.imported == Count(outcomes[..i], Imported)
      invariant results.skipped == Count(outcomes[..i], Skipped)
      invariant results.errors == Count(outcomes[..i], Errored)
    {
      var outcome := outcomes[i];
      assert CountsStep(outcomes, i) by {
        CountStep(outcomes, i);
      }
      results.Record(outcome);
    }
    assert outcomes[..|outcomes|] == outcomes;
  }

  /** Nothing is imported from a message that is not a parsable credit alert. */
  lemma ImportedOnlyCredits(messages: seq<Sms>, userBankName: string, replies: seq<Reply>, k: nat)
    requires |replies| == |messages| && k < |messages|
    requires Outcomes(messages, userBankName, replies)[k] == Imported
    ensures TxParser.ParseTransactionFromText(messages[k].body, userBankName).Some?
    ensures TxParser.IsCredit(messages[k].body, userBankName)
    ensures replies[k] == Created
  {
  }
}

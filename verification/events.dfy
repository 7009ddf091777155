/** Event and message types, and the deduplication identity of a message. */
module Events {

  type Address = nat

  /** One of the operator variants with its handle fields; the variants are not told apart further. */
  datatype Operator = Operator(kind: string, handles: seq<string>)

  datatype TransactionEvent = TransactionEvent(logIndex: nat, caller: Address, operator: Operator)

  datatype TransactionMessage = TransactionMessage(
    chainId: nat,
    caller: Address,
    blockNumber: nat,
    firstLogIndex: nat,
    transactionHash: string,
    events: seq<TransactionEvent>)
  {
    /** The `Nats-Msg-Id`, up to keccak256: the string that is hashed, the hash being taken as injective. */
    function Checksum(): string {
      Decimal(chainId) + ":" + transactionHash
    }

    function Subject(base: string): string {
      base + "." + transactionHash
    }
  }

  function Digit(d: nat): (c: char)
    requires d < 10
    ensures '0' <= c <= '9'
  {
    "0123456789"[d]
  }

  function Decimal(n: nat): string {
    if n < 10 then [Digit(n)] else Decimal(n / 10) + [Digit(n % 10)]
  }

  lemma {:induction false} DecimalHasOnlyDigits(n: nat)
    ensures Decimal(n) != [] && forall c :: c in Decimal(n) ==> '0' <= c <= '9'
  {
    if n >= 10 {
      DecimalHasOnlyDigits(n / 10);
    }
  }

  /** The number that a string of digits stands for. */
  function Value(digits: string): int {
    if digits == "" then 0
    else 10 * Value(digits[..|digits| - 1]) + (digits[|digits| - 1] as int - '0' as int)
  }

  /** The decimal text of a number stands for it, and has no leading zero. */
  lemma {:induction false} DecimalStandsFor(n: nat)
    ensures (forall c :: c in Decimal(n) ==> '0' <= c <= '9') && Value(Decimal(n)) == n
    ensures Decimal(n) != "" && (n > 0 ==> Decimal(n)[0] != '0')
  {
    DecimalHasOnlyDigits(n);
    if n >= 10 {
      DecimalStandsFor(n / 10);
      assert Decimal(n)[..|Decimal(n)| - 1] == Decimal(n / 10);
    } else {
      assert Decimal(n)[..0] == "";
    }
  }

  lemma {:induction false} DecimalIsInjective(a: nat, b: nat)
    requires Decimal(a) == Decimal(b)
    ensures a == b
  {
    var da, db := Decimal(a), Decimal(b);
    assert da[|da| - 1] == db[|db| - 1];
    if a >= 10 && b >= 10 {
      assert da[..|da| - 1] == Decimal(a / 10) && db[..|db| - 1] == Decimal(b / 10);
      DecimalIsInjective(a / 10, b / 10);
    } else {
      DecimalLength(a);
      DecimalLength(b);
    }
  }

  lemma DecimalLength(n: nat)
    ensures |Decimal(n)| == 1 <==> n < 10
  {
    if n >= 10 {
      DecimalHasOnlyDigits(n / 10);
    }
  }

  ghost function FirstIndex(s: string, c: char): nat {
    if s == [] || s[0] == c then 0 else 1 + FirstIndex(s[1..], c)
  }

  lemma {:induction false} FirstIndexAfter(a: string, c: char, x: string)
    requires c !in a
    ensures FirstIndex(a + [c] + x, c) == |a|
  {
    if a != [] {
      assert (a + [c] + x)[1..] == a[1..] + [c] + x;
      FirstIndexAfter(a[1..], c, x);
    }
  }

  lemma SplitAtSeparator(a: string, b: string, x: string, y: string, sep: char)
    requires sep !in a && sep !in b
    requires a + [sep] + x == b + [sep] + y
    ensures a == b && x == y
  {
    var l, r := a + [sep] + x, b + [sep] + y;
    FirstIndexAfter(a, sep, x);
    FirstIndexAfter(b, sep, y);
    assert a == l[..|a|] && b == r[..|b|];
    assert x == l[|a| + 1..] && y == r[|b| + 1..];
  }

  /** Two messages are duplicates for the stream exactly when they carry the same transaction of the same chain. */
  lemma ChecksumIdentifiesTransaction(m: TransactionMessage, n: TransactionMessage)
    ensures m.Checksum() == n.Checksum() <==> m.chainId == n.chainId && m.transactionHash == n.transactionHash
  {
    if m.Checksum() == n.Checksum() {
      DecimalHasOnlyDigits(m.chainId);
      DecimalHasOnlyDigits(n.chainId);
      SplitAtSeparator(Decimal(m.chainId), Decimal(n.chainId), m.transactionHash, n.transactionHash, ':');
      DecimalIsInjective(m.chainId, n.chainId);
    }
  }

  /** What is hashed and what is subscribed to: chain id and hash around a colon, base subject and hash around a dot. */
  lemma IdentityTexts(base: string, m: TransactionMessage)
    ensures var id, at := m.Checksum(), |Decimal(m.chainId)|;
            at < |id| && id[..at] == Decimal(m.chainId) && id[at] == ':' && id[at + 1..] == m.transactionHash
    ensures var subject := m.Subject(base);
            |base| < |subject| && subject[..|base|] == base && subject[|base|] == '.' &&
            subject[|base| + 1..] == m.transactionHash
  {
    var id, subject := m.Checksum(), m.Subject(base);
    assert id == Decimal(m.chainId) + (":" + m.transactionHash);
    assert subject == base + ("." + m.transactionHash);
  }

  /** Messages of one chain share a subject exactly when they are duplicates, so a subject carries one message. */
  lemma SubjectIdentifiesTransaction(base: string, m: TransactionMessage, n: TransactionMessage)
    requires m.chainId == n.chainId
    ensures m.Subject(base) == n.Subject(base) <==> m.Checksum() == n.Checksum()
  {
    ChecksumIdentifiesTransaction(m, n);
    var prefix := base + ".";
    assert m.Subject(base)[|prefix|..] == m.transactionHash && n.Subject(base)[|prefix|..] == n.transactionHash;
  }
}

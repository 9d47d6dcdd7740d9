/** Submitting one signed transaction: what a refusal means and how often it is sent again. Error
    messages are taken as they are after lower-casing. */
module Sending {
  import opened Wrappers
  import opened Nonces

  datatype Reply = Taken | Refused(m: string)

  /** `Thrown` leaves the caller to settle the nonce without asking the node for its count. */
  datatype Status = Accepted | Soft | Dropped | Thrown

  const BENIGN: seq<string> := ["already known", "already in", "replacement", "underpriced", "coalesce"]
  const TRANSIENT: seq<string> := [
    "timeout", "econn", "socket", "reset", "fetch", "429", "500", "502", "503", "504",
    "server error", "server response 5", "txpool", "mempool is full"]
  const MAX_RETRIES: nat := 3

  predicate StartsAt(m: string, i: nat, s: string) {
    i + |s| <= |m| && m[i..i + |s|] == s
  }

  predicate Includes(m: string, s: string) {
    exists i | 0 <= i <= |m| :: StartsAt(m, i, s)
  }

  predicate IncludesAny(m: string, s: seq<string>) {
    exists k | 0 <= k < |s| :: Includes(m, s[k])
  }

  /** None: try again. */
  function Judge(r: Reply, attempt: nat): Option<Status> {
    if r.Taken? then Some(Accepted)
    else if IncludesAny(r.m, BENIGN) then Some(Soft)
    else if Includes(r.m, "nonce") then Some(Dropped)
    else if IncludesAny(r.m, TRANSIENT) && attempt < MAX_RETRIES then None
    else Some(Thrown)
  }

  /** The status and the number of broadcasts, from the given attempt on. */
  function Sent(replies: nat -> Reply, attempt: nat): (Status, nat)
    requires attempt <= MAX_RETRIES
    decreases MAX_RETRIES - attempt
  {
    var r := Judge(replies(attempt), attempt);
    if r.None? && attempt < MAX_RETRIES then Sent(replies, attempt + 1)
    else (if r.Some? then r.value else Thrown, attempt + 1)
  }

  predicate Retryable(r: Reply) {
    r.Refused? && !IncludesAny(r.m, BENIGN) && !Includes(r.m, "nonce") && IncludesAny(r.m, TRANSIENT)
  }

  /** At most four broadcasts. All replies but the last ask for a retry, and the last alone decides:
      the transaction is given up as a failure only if it is refused for a reason of its own, or for
      the fourth time; a reply that says the pool has it is never one. */
  lemma {:induction false} TheLastReplyDecides(replies: nat -> Reply, attempt: nat)
    requires attempt <= MAX_RETRIES
    ensures var (s, n) := Sent(replies, attempt);
            && attempt < n <= 4
            && (forall i :: attempt <= i < n - 1 ==> Retryable(replies(i)))
            && (s == Accepted <==> replies(n - 1).Taken?)
            && (s == Soft <==> replies(n - 1).Refused? && IncludesAny(replies(n - 1).m, BENIGN))
            && (s == Dropped <==> replies(n - 1).Refused? && !IncludesAny(replies(n - 1).m, BENIGN)
                                  && Includes(replies(n - 1).m, "nonce"))
            && (s == Thrown ==> Retryable(replies(n - 1)) ==> n == 4)
            && (s != Thrown ==> !Retryable(replies(n - 1)))
    decreases MAX_RETRIES - attempt
  {
    hide IncludesAny;
    hide Includes;
    if Retryable(replies(attempt)) && attempt < MAX_RETRIES {
      TheLastReplyDecides(replies, attempt + 1);
    }
  }

  /** Takes one nonce for all attempts. `read` is the count the node answers when the nonce was refused. */
  method SendRaw(nonces: NonceManager, w: Wallet, replies: nat -> Reply, read: Option<nat>)
    returns (status: Status, nonce: nat, broadcasts: nat)
    modifies nonces
    ensures nonce == Get(old(nonces.next), w, 0)
    ensures (status, broadcasts) == Sent(replies, 0)
    ensures nonces.View() == if status == Dropped && read.Some?
                             then Nonces.Apply(Nonces.Apply(old(nonces.View()), Take(w)), Resync(w, read.value))
                             else Nonces.Apply(old(nonces.View()), Take(w))
  {
    nonce := nonces.TakeNonce(w);
    broadcasts := 0;
    while true
      invariant broadcasts <= MAX_RETRIES
      invariant Sent(replies, broadcasts) == Sent(replies, 0)
      invariant nonces.View() == Nonces.Apply(old(nonces.View()), Take(w))
      decreases MAX_RETRIES - broadcasts
    {
      var r := replies(broadcasts);
      broadcasts := broadcasts + 1;
      if r.Taken? { return Accepted, nonce, broadcasts; }
      if IncludesAny(r.m, BENIGN) { return Soft, nonce, broadcasts; }
      if Includes(r.m, "nonce") {
        if read.Some? { var _ := nonces.ResyncTo(w, read.value); }
        return Dropped, nonce, broadcasts;
      }
      if !(IncludesAny(r.m, TRANSIENT) && broadcasts - 1 < MAX_RETRIES) { return Thrown, nonce, broadcasts; }
    }
  }
}

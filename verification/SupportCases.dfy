/** Support and warranty cases: replies consume the version they were written against. */
module SupportCases {
  import opened Common

  datatype Status = OPEN | IN_PROGRESS | APPROVED | DECLINED | RESOLVED

  /** A message; `consumed` is the version its reply was written against, `None` for the opening one. */
  datatype Message = Message(body: string, staff: bool, consumed: Option<int>)

  datatype Case = Case(user: nat, warranty: bool, status: Status, version: int, resolution: Option<string>,
                       messages: seq<Message>)

  /** A reply by staff, or by a customer. */
  datatype Reply = Reply(customer: Option<nat>, expected: int, body: string, target: Option<Status>)

  function Transitions(from: Status): set<Status> {
    match from
    case OPEN => {IN_PROGRESS, APPROVED, DECLINED, RESOLVED}
    case IN_PROGRESS => {APPROVED, DECLINED, RESOLVED}
    case APPROVED => {RESOLVED}
    case _ => {}
  }

  predicate Final(s: Status) { s == RESOLVED || s == DECLINED }

  /** The case as opened. */
  function Opened(user: nat, warranty: bool, body: string, staff: bool): Case {
    Case(user, warranty, OPEN, 1, None, [Message(body, staff, None)])
  }

  /** The checks made on a reply. */
  predicate Accepted(c: Case, r: Reply) {
    && (r.customer.Some? ==> r.customer.value == c.user)
    && c.version == r.expected && !Final(c.status)
    && (r.target.Some? ==>
          && r.customer.None? && r.target.value in Transitions(c.status)
          && (r.target.value == APPROVED || r.target.value == DECLINED ==> c.warranty))
  }

  /** The case after a reply; a refused one leaves it as it is. */
  function Updated(c: Case, r: Reply): Case {
    if !Accepted(c, r) then c
    else
      c.(version := r.expected + 1, status := if r.target.Some? then r.target.value else c.status,
         resolution := if r.target.Some? && Final(r.target.value) then Some(r.body) else c.resolution,
         messages := c.messages + [Message(r.body, r.customer.None?, Some(r.expected))])
  }

  function Run(c: Case, replies: seq<Reply>): Case
    decreases |replies|
  {
    if replies == [] then c else Updated(Run(c, replies[..|replies| - 1]), replies[|replies| - 1])
  }

  /** The message at index `i` consumed version `i`; the version counts the messages. */
  ghost predicate Inv(c: Case) {
    c.version == |c.messages| && forall i | 0 <= i < |c.messages| ::
      c.messages[i].consumed == if i == 0 then None else Some(i)
  }

  lemma {:induction false} RunKeeps(c: Case, replies: seq<Reply>)
    requires Inv(c) && c.messages != []
    ensures Inv(Run(c, replies)) && c.messages <= Run(c, replies).messages
    ensures Final(c.status) ==> Run(c, replies) == c
    decreases |replies|
  {
    if replies != [] {
      RunKeeps(c, replies[..|replies| - 1]);
    }
  }

  /** On every run the version is the number of messages, no two accepted replies consumed one version, and
      a RESOLVED or DECLINED case never changes again. */
  lemma VersionsConsumedOnce(user: nat, warranty: bool, body: string, staff: bool, before: seq<Reply>,
                             after: seq<Reply>)
    ensures var c := Run(Opened(user, warranty, body, staff), before);
            && c.version == |c.messages|
            && (forall i, j | 0 <= i < j < |c.messages| :: c.messages[i].consumed != c.messages[j].consumed)
            && (c.status == RESOLVED || c.status == DECLINED ==> Run(c, after) == c)
  {
    RunKeeps(Opened(user, warranty, body, staff), before);
    RunKeeps(Run(Opened(user, warranty, body, staff), before), after);
  }

  /** A reply is accepted exactly when it is staff's or the customer's own, is written against the current version of a
      case that is neither RESOLVED nor DECLINED, and asks for no move, or for one that staff may make: never back, from
      APPROVED only to RESOLVED, and to a decision only for a warranty. */
  lemma AcceptedExactlyWhen(c: Case, r: Reply)
    ensures Accepted(c, r) <==>
            && (r.customer.None? || r.customer == Some(c.user)) && r.expected == c.version
            && c.status in {OPEN, IN_PROGRESS, APPROVED}
            && (r.target.Some? ==>
                  && r.customer.None? && r.target.value != OPEN && r.target.value != c.status
                  && (r.target.value == IN_PROGRESS ==> c.status == OPEN)
                  && (r.target.value in {APPROVED, DECLINED} ==> c.warranty && c.status in {OPEN, IN_PROGRESS}))
  {
  }

  /** What an accepted reply leaves: one more version, its message at the end, the status it asked for, and its body as
      the resolution if that ends the case. */
  lemma UpdatedExactly(c: Case, r: Reply)
    ensures var c' := Updated(c, r);
            && (!Accepted(c, r) ==> c' == c)
            && (Accepted(c, r) ==>
                  && c'.version == c.version + 1 && c'.user == c.user && c'.warranty == c.warranty
                  && c'.messages == c.messages + [Message(r.body, r.customer.None?, Some(c.version))]
                  && c'.status == (if r.target.Some? then r.target.value else c.status)
                  && (c'.status in {RESOLVED, DECLINED} ==> c'.resolution == Some(r.body))
                  && (c'.status !in {RESOLVED, DECLINED} ==> c'.resolution == c.resolution))
  {
  }

  /** On every run only a warranty is ever decided, a case has a resolution exactly when it has ended, and replies of
      customers alone move nothing. */
  lemma {:induction false} DecidedByStaff(user: nat, warranty: bool, body: string, staff: bool, replies: seq<Reply>)
    ensures var c := Run(Opened(user, warranty, body, staff), replies);
            && c.warranty == warranty && c.user == user
            && (c.status in {APPROVED, DECLINED} ==> warranty)
            && (c.resolution.Some? <==> c.status in {RESOLVED, DECLINED})
            && (c.status != OPEN ==> exists i | 0 <= i < |replies| :: replies[i].customer.None?)
    decreases |replies|
  {
    if replies != [] {
      var n := |replies| - 1;
      DecidedByStaff(user, warranty, body, staff, replies[..n]);
      var before := Run(Opened(user, warranty, body, staff), replies[..n]);
      AcceptedExactlyWhen(before, replies[n]);
      UpdatedExactly(before, replies[n]);
      if before.status != OPEN {
        var i :| 0 <= i < n && replies[..n][i].customer.None?;
        assert replies[i].customer.None?;
      }
    }
  }

  /** A case row under its row lock. */
  class Desk {
    var row: Case

    /** Accepts or refuses a reply, check by check. */
    method UpdateCase(r: Reply) returns (ok: bool)
      modifies this
      ensures ok <==> Accepted(old(row), r)
      ensures row == Updated(old(row), r)
    {
      if r.customer.Some? && row.user != r.customer.value { return false; }
      if row.version != r.expected { return false; }
      if row.status == RESOLVED || row.status == DECLINED { return false; }
      var resolution := row.resolution;
      var status := row.status;
      if r.target.Some? {
        status := r.target.value;
        if r.customer.Some? || status !in Transitions(row.status) { return false; }
        if (status == APPROVED || status == DECLINED) && !row.warranty { return false; }
        if status == RESOLVED || status == DECLINED {
          resolution := Some(r.body);
        }
      }
      row := row.(version := r.expected + 1, status := status, resolution := resolution,
                  messages := row.messages + [Message(r.body, r.customer.None?, Some(r.expected))]);
      ok := true;
    }
  }
}

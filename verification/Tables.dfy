// The rows that belong to one vault, the lock every route takes on them, and
// the database session through which the routes read and write them.

module Tables {
  import opened Wrappers

  type Time = nat  // seconds

  const DAY: nat := 86400

  type Generation = string

  // ---------------------------------------------------------------------
  // Vault, switch, ceremonies and beneficiaries
  // ---------------------------------------------------------------------

  // A wrapped vault key with its derivation metadata.
  datatype Bundle = Bundle(wrapped: string, salt: string)

  datatype SetupStatus = Uninitialized | Drafting | Ready

  datatype Vault = Vault(
    wrapped: Option<Bundle>, revision: nat, threshold: int, total: int,
    generation: Option<Generation>, setup: SetupStatus)

  datatype State = Active | Grace | Triggered

  datatype Status = Status(
    state: State, version: nat, armed: bool, episode: nat,
    graceStarted: Option<Time>, triggeredAt: Option<Time>)

  // interval and grace are in days
  datatype Config = Config(interval: nat, grace: nat, lastCheckIn: Option<Time>)

  datatype CeremonyStatus = Draft | Finalized | Cancelled | Superseded

  // What the signature of an assignment covers; the hash is injective, so the
  // model keeps the content. Keys are beneficiary ids.
  datatype Bound = Bound(contactRevision: nat, index: Option<int>, generation: Option<Generation>,
                         invitation: Invitation)

  type Binding = map<int, Bound>

  datatype Drill = Drill(revision: nat, binding: Binding, generation: Generation)

  datatype Ceremony = Ceremony(
    generation: Generation, threshold: int, total: int, status: CeremonyStatus,
    expectedRevision: nat, pending: Option<Bundle>, drill: Option<Drill>)

  datatype Invitation = Pending | Sent | Accepted | Expired

  datatype Beneficiary = Beneficiary(
    email: string, phone: Option<string>, index: Option<int>, contactRevision: nat,
    generation: Option<Generation>, invitation: Invitation, token: Option<nat>, sentAt: Option<Time>)

  // A ceremony's id is its position.
  datatype Rows = Rows(
    vault: Vault, status: Status, config: Option<Config>, ceremonies: seq<Ceremony>, people: map<int, Beneficiary>)

  // A freshly registered vault; a status row that does not exist yet reads as
  // the one lock_status would insert.
  const FRESH: Rows := Rows(
    Vault(None, 0, 2, 3, None, Uninitialized),
    Status(Active, 1, false, 0, None, None),
    None, [], map[])

  // ---------------------------------------------------------------------
  // Outbox
  // ---------------------------------------------------------------------

  datatype Kind = GraceFirst | GraceSecond | GraceFinal | ReleasedEvent | InvitationEvent | LoginEvent

  // revision is the version of the locked vault, or its episode for a warning
  datatype Event = Event(kind: Kind, revision: nat)

  datatype Recipient = Owner | Person(id: int, contactRevision: nat)

  datatype Channel = Email | Sms

  datatype JobState = ReadyJob | ClaimedJob | RetryJob | AcceptedJob | DeadJob | CancelledJob

  // payload says whether the encrypted message is still stored
  datatype Job = Job(
    event: nat, recipient: Recipient, channel: Channel, state: JobState, attempts: nat,
    dueAt: Time, leaseUntil: Option<Time>, token: Option<nat>, payload: bool,
    createdAt: Time, expires: Option<Time>)

  datatype Attempt = Attempt(job: nat, completed: bool)

  datatype Verdict = Delivered | GaveUp | Again

  // A provider result that reached the job's row.
  datatype WriteBack = WriteBack(job: nat, token: nat, verdict: Verdict)

  // Events, jobs and claim tokens are numbered in the order they are made.
  // issued[t] is the job token t was issued for; log is the order of results
  // written back. Both are history: no operation reads them.
  datatype Outbox = Outbox(
    events: seq<Event>, jobs: seq<Job>, attempts: map<nat, Attempt>, issued: seq<nat>, log: seq<WriteBack>)

  // ---------------------------------------------------------------------
  // Sessions
  // ---------------------------------------------------------------------

  datatype Principal = OwnerOf(user: int) | BeneficiaryAt(id: int, contactRevision: nat)

  datatype Family = Family(principal: Principal, epoch: string, revoked: bool, expires: Time)

  // A refresh token; parent is the token it was exchanged for, and is history.
  datatype Refresh = Refresh(family: nat, consumedAt: Option<Time>, expires: Time, parent: Option<nat>)

  datatype Challenge = Challenge(
    beneficiary: int, contactRevision: nat, epoch: string, consumedAt: Option<Time>, expires: Time, createdAt: Time)

  // Raw tokens are unguessable and stored by hash: the model names a token by
  // its position, and a value no row has is one the server never handed out.
  datatype Auth = Auth(families: seq<Family>, tokens: seq<Refresh>, challenges: seq<Challenge>)

  // ---------------------------------------------------------------------
  // Transactions
  // ---------------------------------------------------------------------

  datatype World = World(rows: Rows, box: Outbox, auth: Auth)

  datatype Refusal = NotFound | Conflict | Invalid | Gone | Unauthorized

  // A refused request leaves every row as it was: its transaction rolls back.
  datatype Reply = Done(rows: Rows) | Refused(why: Refusal) {
    function Or(rows: Rows): Rows {
      if Done? then this.rows else rows
    }
  }

  function Lock(r: Rows): Rows {
    r.(status := r.status.(version := r.status.version + 1))
  }

  // The lock, refused once the vault is released or its material has changed.
  function Writable(r: Rows, expected: Option<int>): Reply {
    if r.status.state == Triggered then Refused(Conflict)
    else if expected.Some? && r.vault.revision != expected.value then Refused(Conflict)
    else Done(Lock(r))
  }

  // A session holds the rows its transaction works on, and what is committed.
  // The vault's lock makes it the only transaction on these rows.
  class Session {
    var vault: Vault
    var status: Status
    var config: Option<Config>
    var ceremonies: seq<Ceremony>
    var people: map<int, Beneficiary>
    var events: seq<Event>
    var jobs: seq<Job>
    var attempts: map<nat, Attempt>
    var issued: seq<nat>
    var log: seq<WriteBack>
    var families: seq<Family>
    var tokens: seq<Refresh>
    var challenges: seq<Challenge>
    var committed: World

    constructor (w: World)
      ensures Clean() && committed == w
    {
      vault, status, config, ceremonies, people :=
        w.rows.vault, w.rows.status, w.rows.config, w.rows.ceremonies, w.rows.people;
      events, jobs, attempts, issued, log :=
        w.box.events, w.box.jobs, w.box.attempts, w.box.issued, w.box.log;
      families, tokens, challenges := w.auth.families, w.auth.tokens, w.auth.challenges;
      committed := w;
    }

    function RowsNow(): Rows
      reads `vault, `status, `config, `ceremonies, `people
    {
      Rows(vault, status, config, ceremonies, people)
    }

    function BoxNow(): Outbox
      reads `events, `jobs, `attempts, `issued, `log
    {
      Outbox(events, jobs, attempts, issued, log)
    }

    function AuthNow(): Auth
      reads `families, `tokens, `challenges
    {
      Auth(families, tokens, challenges)
    }

    function Now(): World
      reads this
    {
      World(RowsNow(), BoxNow(), AuthNow())
    }

    // No transaction is open.
    predicate Clean()
      reads this
    {
      Now() == committed
    }

    method Commit()
      modifies this`committed
      ensures Clean()
    {
      committed := Now();
    }

    method Rollback()
      modifies this
      ensures Clean() && committed == old(committed)
    {
      hide RowsNow, BoxNow, AuthNow;
      RestoreRows();
      RestoreBox();
      RestoreAuth();
    }

    method RestoreRows()
      modifies this`vault, this`status, this`config, this`ceremonies, this`people
      ensures RowsNow() == committed.rows
    {
      var r := committed.rows;
      vault, status, config, ceremonies, people := r.vault, r.status, r.config, r.ceremonies, r.people;
    }

    method RestoreBox()
      modifies this`events, this`jobs, this`attempts, this`issued, this`log
      ensures BoxNow() == committed.box
    {
      var b := committed.box;
      events, jobs, attempts, issued, log := b.events, b.jobs, b.attempts, b.issued, b.log;
    }

    method RestoreAuth()
      modifies this`families, this`tokens, this`challenges
      ensures AuthNow() == committed.auth
    {
      var a := committed.auth;
      families, tokens, challenges := a.families, a.tokens, a.challenges;
    }

    // lock_status: one more version, seen by nobody until the commit.
    method LockStatus()
      modifies this`status
      ensures RowsNow() == Lock(old(RowsNow()))
    {
      status := status.(version := status.version + 1);
    }
  }
}

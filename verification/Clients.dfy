/** The state the bot works on: the store (Redis locks, Postgres rows) and GitHub. */
module Clients {
  import opened Wrappers
  import opened Lifecycle
  import PullRequest
  import Sanitize

  // One operation is one call; the calls succeed.
  class Store {
    var now: int
    var locks: map<string, Lock>
    var rows: map<nat, PendingDeploy>
    var history: seq<HistoryEntry>

    constructor ()
      ensures now == 0 && locks == map[] && rows == map[] && history == []
    {
      now, locks, rows, history := 0, map[], map[], [];
    }

    // SET NX: the key is taken by whoever comes first, and by nobody else until it is gone.
    method AcquireLock(env: string, app: string, holder: string, ttl: int) returns (acquired: bool)
      modifies `locks
      ensures acquired <==> LockKey(env, app) !in old(locks)
      ensures !acquired ==> locks == old(locks)
      ensures acquired ==>
        locks == old(locks)[LockKey(env, app) := Lock(holder, now, if ttl > 0 then Some(now + ttl) else None)]
    {
      var key := LockKey(env, app);
      acquired := key !in locks;
      if acquired {
        locks := locks[key := Lock(holder, now, if ttl > 0 then Some(now + ttl) else None)];
      }
    }

    method IsLocked(env: string, app: string) returns (locked: bool)
      ensures locked <==> LockKey(env, app) in locks
    {
      locked := LockKey(env, app) in locks;
    }

    // DEL: whoever holds the key.
    method ReleaseLock(env: string, app: string)
      modifies `locks
      ensures locks == old(locks) - {LockKey(env, app)}
    {
      locks := locks - {LockKey(env, app)};
    }

    method Set(d: PendingDeploy)
      modifies `rows
      ensures rows == old(rows)[d.prNumber := d]
    {
      rows := rows[d.prNumber := d];
    }

    method Get(n: nat) returns (d: Option<PendingDeploy>)
      ensures d == if n in rows then Some(rows[n]) else None
    {
      d := if n in rows then Some(rows[n]) else None;
    }

    method Delete(n: nat)
      modifies `rows
      ensures rows == old(rows) - {n}
    {
      rows := rows - {n};
    }

    // found is false for ErrPendingNotFound.
    method UpdateState(n: nat, s: DeployState) returns (found: bool)
      modifies `rows
      ensures found <==> n in old(rows)
      ensures found ==> rows == old(rows)[n := old(rows)[n].(state := s)]
      ensures !found ==> rows == old(rows)
    {
      found := n in rows;
      if found {
        rows := rows[n := rows[n].(state := s)];
      }
    }

    // A row that is gone is not an error.
    method SetSlackHandle(n: nat, h: SlackHandle)
      modifies `rows
      ensures rows == if n in old(rows) then old(rows)[n := old(rows)[n].(slack := h)] else old(rows)
    {
      if n in rows {
        rows := rows[n := rows[n].(slack := h)];
      }
    }

    method PushHistory(h: HistoryEntry)
      modifies `history
      ensures history == old(history) + [h]
    {
      history := history + [h];
    }
  }

  datatype CreateError = ErrNoChange | ErrCreate

  // What GitHub answers is an argument of each call.
  class Client {
    var prs: map<nat, PR>
    // How often a merge and a rebase were asked for.
    ghost var merges: nat
    ghost var rebases: nat

    constructor ()
      ensures prs == map[] && merges == 0 && rebases == 0
    {
      prs, merges, rebases := map[], 0, 0;
    }

    // GitHub numbers pull requests afresh.
    method CreateDeployPR(p: PullRequest.Params, reply: CreateReply, now: int) returns (r: Result<nat, CreateError>)
      modifies `prs
      ensures r.Ok? <==> reply.Created? && reply.number !in old(prs) && Sanitize.TagIsSafe(p.tag)
      ensures r.Ok? ==> r.value == reply.number && prs == old(prs)[r.value := PR(Open, {}, PullRequest.Body(p), now)]
      ensures r.Err? ==> prs == old(prs)
    {
      if !Sanitize.TagIsSafe(p.tag) {
        return Err(ErrCreate);
      }
      if reply.NoChange? {
        return Err(ErrNoChange);
      }
      if !reply.Created? || reply.number in prs {
        return Err(ErrCreate);
      }
      prs := prs[reply.number := PR(Open, {}, PullRequest.Body(p), now)];
      r := Ok(reply.number);
    }

    method MergePR(n: nat, reply: MergeReply) returns (r: Result<string, MergeError>)
      modifies `prs, `merges
      ensures merges == old(merges) + 1
      ensures r.Ok? <==> reply.Accepted? && n in old(prs) && old(prs)[n].status.Open?
      ensures r.Ok? ==> r.value == reply.sha && prs == old(prs)[n := old(prs)[n].(status := Merged(reply.sha, Bot))]
      ensures r.Err? ==> prs == old(prs)
      ensures r.Err? && reply.Refused? ==> r.error == reply.error
      ensures r.Err? && reply.Accepted? ==> r.error == if n in old(prs) then Conflict else OtherError
    {
      merges := merges + 1;
      match reply
      case Refused(e) => r := Err(e);
      case Accepted(sha) =>
        if n !in prs {
          r := Err(OtherError);
        } else if prs[n].status.Open? {
          prs := prs[n := prs[n].(status := Merged(sha, Bot))];
          r := Ok(sha);
        } else {
          r := Err(Conflict);
        }
    }

    // The branch that is pushed is not part of the state.
    method RebaseDeployBranch(reply: RebaseReply) returns (r: RebaseReply)
      modifies `rebases
      ensures rebases == old(rebases) + 1 && r == reply
    {
      rebases := rebases + 1;
      r := reply;
    }

    // A pull request that is not open, or not there, is no error.
    method ClosePR(n: nat)
      modifies `prs
      ensures prs == if n in old(prs) && old(prs)[n].status.Open? then
                       old(prs)[n := old(prs)[n].(status := Closed)] else old(prs)
    {
      if n in prs && prs[n].status.Open? {
        prs := prs[n := prs[n].(status := Closed)];
      }
    }

    method AddLabels(n: nat, labels: set<Label>, ok: bool)
      modifies `prs
      ensures prs == if ok && n in old(prs) then
                       old(prs)[n := old(prs)[n].(labels := old(prs)[n].labels + labels)] else old(prs)
    {
      if ok && n in prs {
        prs := prs[n := prs[n].(labels := prs[n].labels + labels)];
      }
    }

    method RemoveLabel(n: nat, l: Label, ok: bool)
      modifies `prs
      ensures prs == if ok && n in old(prs) then
                       old(prs)[n := old(prs)[n].(labels := old(prs)[n].labels - {l})] else old(prs)
    {
      if ok && n in prs {
        prs := prs[n := prs[n].(labels := prs[n].labels - {l})];
      }
    }
  }
}

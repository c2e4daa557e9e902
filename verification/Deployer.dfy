/** The resumable contract deployer: every step is written to the deployment file, and a run
    that was cut off is simply run again. Command results come from outside, as a list of
    replies; a run is cut off where the list ends, fails, or says so. */
module Deployer {
  import opened Prelude

  /** `needs` are the contracts whose ids the arguments mention. */
  datatype Call = Call(fn: string, needs: seq<string>)

  /** `calls` is the init call, if any, followed by the setup calls. */
  datatype Contract = Contract(name: string, installOnly: bool, calls: seq<Call>)

  datatype Entry = Entry(wasmHash: string, contractId: Option<string>, initialized: bool)

  type Record = map<string, Entry>

  /** The deployment file, by network. */
  type Records = map<string, Record>

  datatype Options = Options(network: string, only: set<string>, force: bool, dryRun: bool) {
    predicate Selects(c: Contract) { only == {} || c.name in only }
  }

  /** What a command leaves on the network. */
  datatype Effect =
    | Uploaded(name: string, hash: string)
    | Deployed(name: string, hash: string, id: string)
    | Invoked(name: string, id: string, call: Call, args: seq<string>)

  datatype Command =
    | Upload(name: string)
    | Deploy(name: string, hash: string)
    | Invoke(name: string, id: string, call: Call, args: seq<string>)
  {
    function EffectOf(output: string): Effect {
      match this
      case Upload(name) => Uploaded(name, output)
      case Deploy(name, hash) => Deployed(name, hash, output)
      case Invoke(name, id, call, args) => Invoked(name, id, call, args)
    }

    /** What a dry run shows for the output. */
    function Placeholder(): string {
      match this
      case Upload(name) => "<" + name + "-wasm-hash>"
      case Deploy(name, _) => "<" + name + "-contract-id>"
      case Invoke(_, _, _, _) => ""
    }
  }

  /** A command succeeds with an output; or it fails; or it takes effect and the process is
      gone before it can note the output. */
  datatype Reply = Success(output: string) | Failure | CutOffAfter(output: string)

  /** What a process finds and what is left once it has ended or was cut off: the file, what has
      happened on the network, and the functions that a contract takes only once, such as
      `initialize`. */
  datatype Outside = Outside(disk: Records, chain: seq<Effect>, once: set<string>)

  /** A running deployer: the file as loaded and updated in memory, the file on disk, what has
      happened on the network, the functions taken only once, the replies still to come. */
  datatype Process = Process(
    deployments: Records, disk: Records, chain: seq<Effect>, once: set<string>, replies: seq<Reply>, alive: bool)

  function RecordOf(r: Records, network: string): Record { if network in r then r[network] else map[] }

  // ----- The steps -----

  function Load(o: Options, w: Outside, replies: seq<Reply>): Process {
    Process(w.disk[o.network := RecordOf(w.disk, o.network)], w.disk, w.chain, w.once, replies, true)
  }

  /** The functions that have been called on an instance. */
  function Called(chain: seq<Effect>, name: string, id: string): set<string>
    decreases |chain|
  {
    if chain == [] then {}
    else
      var e, rest := chain[|chain| - 1], Called(chain[..|chain| - 1], name, id);
      if e.Invoked? && e.name == name && e.id == id then rest + {e.call.fn} else rest
  }

  /** A contract refuses a second call of a function that it takes only once. */
  predicate Refused(chain: seq<Effect>, once: set<string>, cmd: Command) {
    cmd.Invoke? && cmd.call.fn in once && cmd.call.fn in Called(chain, cmd.name, cmd.id)
  }

  /** In a dry run nothing is executed and a placeholder stands for the output. */
  function Exec(o: Options, p: Process, cmd: Command): (Process, Option<string>) {
    if o.dryRun then (p, Some(cmd.Placeholder()))
    else if p.replies == [] || Refused(p.chain, p.once, cmd) then (p.(alive := false), None)
    else
      var rest := p.(replies := p.replies[1..]);
      match p.replies[0]
      case Failure => (rest.(alive := false), None)
      case CutOffAfter(out) => (rest.(chain := p.chain + [cmd.EffectOf(out)], alive := false), None)
      case Success(out) => (rest.(chain := p.chain + [cmd.EffectOf(out)]), Some(out))
  }

  function SetEntry(o: Options, p: Process, name: string, e: Entry): Process {
    p.(deployments := p.deployments[o.network := RecordOf(p.deployments, o.network)[name := e]])
  }

  function Persist(o: Options, p: Process): Process {
    if o.dryRun then p else p.(disk := p.deployments)
  }

  /** The ids of the contracts that a call mentions; a missing one aborts the run. */
  function Resolve(o: Options, record: Record, needs: seq<string>): Option<seq<string>> {
    if needs == [] then Some([])
    else
      var rest := Resolve(o, record, needs[1..]);
      var known := needs[0] in record && record[needs[0]].contractId.Some?;
      if rest.None? || (!known && !o.dryRun) then None
      else Some([if known then record[needs[0]].contractId.value else "<" + needs[0] + "-contract-id>"] + rest.value)
  }

  function InvokeOne(o: Options, p: Process, name: string, id: string, call: Call): Process {
    var args := Resolve(o, RecordOf(p.deployments, o.network), call.needs);
    if args.None? then p.(alive := false) else Exec(o, p, Invoke(name, id, call, args.value)).0
  }

  function InvokeAll(o: Options, p: Process, name: string, id: string, calls: seq<Call>): Process
    decreases |calls|
  {
    if calls == [] || !p.alive then p
    else InvokeAll(o, InvokeOne(o, p, name, id, calls[0]), name, id, calls[1..])
  }

  /** Init and setup calls of a deployed contract, unless they are already done. */
  function Initialise(o: Options, p: Process, c: Contract): Process {
    var record := RecordOf(p.deployments, o.network);
    if c.name !in record || record[c.name].initialized || record[c.name].contractId.None? then p
    else
      var q := InvokeAll(o, p, c.name, record[c.name].contractId.value, c.calls);
      if !q.alive then q else Persist(o, SetEntry(o, q, c.name, record[c.name].(initialized := true)))
  }

  /** A fresh instance: upload, and deploy unless the contract is installed only. */
  function Instantiate(o: Options, p: Process, c: Contract): Process {
    var (q, hash) := Exec(o, p, Upload(c.name));
    if hash.None? then q
    else
      var installed := Persist(o, SetEntry(o, q, c.name, Entry(hash.value, None, false)));
      if c.installOnly then installed
      else
        var (r, id) := Exec(o, installed, Deploy(c.name, hash.value));
        if id.None? then r else Persist(o, SetEntry(o, r, c.name, Entry(hash.value, id, false)))
  }

  predicate AlreadyDeployed(o: Options, record: Record, c: Contract) {
    !o.force && c.name in record && record[c.name].contractId.Some? && !c.installOnly
  }

  function DeployContract(o: Options, p: Process, c: Contract): Process {
    var q := if AlreadyDeployed(o, RecordOf(p.deployments, o.network), c) then p else Instantiate(o, p, c);
    if !q.alive || c.installOnly then q else Initialise(o, q, c)
  }

  function DeployAll(o: Options, p: Process, cs: seq<Contract>): Process
    decreases |cs|
  {
    if cs == [] || !p.alive then p
    else DeployAll(o, if o.Selects(cs[0]) then DeployContract(o, p, cs[0]) else p, cs[1..])
  }

  /** One run of the deployer over the configured contracts. */
  function Run(cfg: seq<Contract>, o: Options, w: Outside, replies: seq<Reply>): Process {
    DeployAll(o, Load(o, w, replies), cfg)
  }

  // ----- The deployer -----

  class ContractDeployer {
    const options: Options
    const contracts: seq<Contract>
    var deployments: Records
    // The file, the network and the outcome of commands lie outside the process.
    var disk: Records
    var chain: seq<Effect>
    const once: set<string>
    var replies: seq<Reply>
    var alive: bool

    constructor (contracts: seq<Contract>, options: Options, w: Outside, replies: seq<Reply>)
      ensures this.options == options && this.contracts == contracts
      ensures Contents() == Load(options, w, replies)
    {
      this.options, this.contracts := options, contracts;
      this.deployments := w.disk[options.network := RecordOf(w.disk, options.network)];
      this.disk, this.chain, this.once, this.replies, this.alive := w.disk, w.chain, w.once, replies, true;
    }

    ghost function Contents(): Process
      reads this
    {
      Process(deployments, disk, chain, once, replies, alive)
    }

    method ExecCommand(cmd: Command) returns (output: Option<string>)
      modifies this
      ensures (Contents(), output) == Exec(options, old(Contents()), cmd)
    {
      if options.dryRun {
        return Some(cmd.Placeholder());
      }
      if replies == [] || Refused(chain, once, cmd) {
        alive := false;
        return None;
      }
      var reply := replies[0];
      replies := replies[1..];
      match reply {
        case Failure =>
          alive, output := false, None;
        case CutOffAfter(out) =>
          chain, alive, output := chain + [cmd.EffectOf(out)], false, None;
        case Success(out) =>
          chain, output := chain + [cmd.EffectOf(out)], Some(out);
      }
    }

    method Write(name: string, e: Entry)
      modifies this
      ensures Contents() == Persist(options, SetEntry(options, old(Contents()), name, e))
    {
      deployments := deployments[options.network := RecordOf(deployments, options.network)[name := e]];
      if !options.dryRun {
        disk := deployments;
      }
    }

    method InvokeCalls(name: string, id: string, calls: seq<Call>)
      modifies this
      ensures Contents() == InvokeAll(options, old(Contents()), name, id, calls)
    {
      var i := 0;
      while i < |calls| && alive
        invariant 0 <= i <= |calls|
        invariant InvokeAll(options, Contents(), name, id, calls[i..]) ==
                  InvokeAll(options, old(Contents()), name, id, calls)
      {
        assert calls[i..][0] == calls[i] && calls[i..][1..] == calls[i + 1..];
        var args := Resolve(options, RecordOf(deployments, options.network), calls[i].needs);
        if args.None? {
          alive := false;
        } else {
          var _ := ExecCommand(Invoke(name, id, calls[i], args.value));
        }
        i := i + 1;
      }
    }

    method DeployOne(c: Contract)
      modifies this
      ensures Contents() == DeployContract(options, old(Contents()), c)
    {
      var record := RecordOf(deployments, options.network);
      if !AlreadyDeployed(options, record, c) {
        var hash := ExecCommand(Upload(c.name));
        if hash.None? {
          return;
        }
        Write(c.name, Entry(hash.value, None, false));
        if c.installOnly {
          return;
        }
        var id := ExecCommand(Deploy(c.name, hash.value));
        if id.None? {
          return;
        }
        Write(c.name, Entry(hash.value, id, false));
      }
      if c.installOnly || !alive {
        return;
      }
      record := RecordOf(deployments, options.network);
      if c.name !in record || record[c.name].initialized || record[c.name].contractId.None? {
        return;
      }
      InvokeCalls(c.name, record[c.name].contractId.value, c.calls);
      if !alive {
        return;
      }
      Write(c.name, record[c.name].(initialized := true));
    }

    method RunAll()
      modifies this
      ensures Contents() == DeployAll(options, old(Contents()), contracts)
    {
      var i := 0;
      while i < |contracts| && alive
        invariant 0 <= i <= |contracts|
        invariant DeployAll(options, Contents(), contracts[i..]) == DeployAll(options, old(Contents()), contracts)
      {
        assert contracts[i..][0] == contracts[i] && contracts[i..][1..] == contracts[i + 1..];
        if options.Selects(contracts[i]) {
          DeployOne(contracts[i]);
        }
        i := i + 1;
      }
    }
  }

  // ----- What every run keeps -----

  predicate DistinctNames(cfg: seq<Contract>) {
    forall i, j :: 0 <= i < j < |cfg| ==> cfg[i].name != cfg[j].name
  }

  predicate Ran(e: Effect, name: string, id: string, call: Call) {
    e.Invoked? && e.name == name && e.id == id && e.call == call
  }

  /** From position `k` on, the chain holds the calls on `id`, one after the other. */
  predicate CallsAt(chain: seq<Effect>, k: nat, name: string, id: string, calls: seq<Call>) {
    && k + |calls| <= |chain|
    && forall i :: 0 <= i < |calls| ==> Ran(chain[k + i], name, id, calls[i])
  }

  /** Every entry was uploaded, one with an id was deployed from that upload, and on the id of
      an initialised one the init and setup calls have succeeded, in order. */
  ghost predicate EntryOk(c: Contract, e: Entry, chain: seq<Effect>) {
    && Uploaded(c.name, e.wasmHash) in chain
    && (c.installOnly ==> e.contractId.None?)
    && (e.contractId.Some? ==> Deployed(c.name, e.wasmHash, e.contractId.value) in chain)
    && (e.initialized ==> e.contractId.Some? && exists k :: CallsAt(chain, k, c.name, e.contractId.value, c.calls))
  }

  /** Whatever the contract, a recorded id was deployed. */
  ghost predicate IdsDeployed(file: Records, chain: seq<Effect>) {
    forall n, name :: n in file && name in file[n] && file[n][name].contractId.Some? ==>
      Deployed(name, file[n][name].wasmHash, file[n][name].contractId.value) in chain
  }

  ghost predicate FileOk(cfg: seq<Contract>, file: Records, chain: seq<Effect>) {
    && IdsDeployed(file, chain)
    && forall n, c :: n in file && c in cfg && c.name in file[n] ==> EntryOk(c, file[n][c.name], chain)
  }

  ghost predicate WasDeployed(chain: seq<Effect>, name: string, id: string) {
    exists hash :: Deployed(name, hash, id) in chain
  }

  /** The arguments are ids of the contracts that the call mentions, each deployed by then. */
  ghost predicate Informed(chain: seq<Effect>, call: Call, args: seq<string>) {
    && |args| == |call.needs|
    && forall i :: 0 <= i < |args| ==> WasDeployed(chain, call.needs[i], args[i])
  }

  /** So are those of every call from position `from` on. */
  ghost predicate CallsInformed(chain: seq<Effect>, from: nat) {
    forall k :: from <= k < |chain| && chain[k].Invoked? ==> Informed(chain[..k], chain[k].call, chain[k].args)
  }

  /** The arguments are the ids that the record holds for the contracts mentioned. */
  predicate Recorded(r: Record, call: Call, args: seq<string>) {
    && |args| == |call.needs|
    && forall i :: 0 <= i < |args| ==> call.needs[i] in r && r[call.needs[i]].contractId == Some(args[i])
  }

  predicate KeepsIds(a: Record, b: Record) {
    forall name :: name in a && a[name].contractId.Some? ==> name in b && b[name].contractId == a[name].contractId
  }

  ghost predicate SameElsewhere(a: Records, b: Records, network: string) {
    forall m :: m != network ==> RecordOf(a, m) == RecordOf(b, m)
  }

  /** Relates a running process to the world `base` that it started from. */
  ghost predicate Inv(cfg: seq<Contract>, base: Outside, o: Options, p: Process) {
    && FileOk(cfg, p.disk, p.chain) && FileOk(cfg, p.deployments, p.chain)
    && CallsInformed(p.chain, |base.chain|)
    && SameElsewhere(base.disk, p.disk, o.network) && SameElsewhere(base.disk, p.deployments, o.network)
    && (!o.force ==>
          && KeepsIds(RecordOf(base.disk, o.network), RecordOf(p.disk, o.network))
          && KeepsIds(RecordOf(p.disk, o.network), RecordOf(p.deployments, o.network)))
  }

  lemma EntryOkGrows(c: Contract, e: Entry, chain: seq<Effect>, more: seq<Effect>)
    requires EntryOk(c, e, chain) && chain <= more
    ensures EntryOk(c, e, more)
  {
    if e.initialized {
      var k :| CallsAt(chain, k, c.name, e.contractId.value, c.calls);
      assert CallsAt(more, k, c.name, e.contractId.value, c.calls);
    }
  }

  lemma FileOkGrows(cfg: seq<Contract>, file: Records, chain: seq<Effect>, more: seq<Effect>)
    requires FileOk(cfg, file, chain) && chain <= more
    ensures FileOk(cfg, file, more)
  {
    forall n, c | n in file && c in cfg && c.name in file[n]
      ensures EntryOk(c, file[n][c.name], more)
    {
      EntryOkGrows(c, file[n][c.name], chain, more);
    }
  }

  lemma InvGrows(cfg: seq<Contract>, base: Outside, o: Options, p: Process, q: Process)
    requires Inv(cfg, base, o, p) && q.deployments == p.deployments && q.disk == p.disk && p.chain <= q.chain
    requires CallsInformed(q.chain, |base.chain|)
    ensures Inv(cfg, base, o, q)
  {
    FileOkGrows(cfg, p.disk, p.chain, q.chain);
    FileOkGrows(cfg, p.deployments, p.chain, q.chain);
  }

  lemma CallsInformedSnoc(chain: seq<Effect>, e: Effect, from: nat)
    requires CallsInformed(chain, from) && (e.Invoked? ==> Informed(chain, e.call, e.args))
    ensures CallsInformed(chain + [e], from)
  {
    var more := chain + [e];
    forall k | from <= k < |more| && more[k].Invoked?
      ensures Informed(more[..k], more[k].call, more[k].args)
    {
      assert more[..k] == chain[..k];
      assert chain[..|chain|] == chain;
    }
  }

  lemma ExecInv(cfg: seq<Contract>, base: Outside, o: Options, p: Process, cmd: Command)
    requires Inv(cfg, base, o, p) && !o.dryRun && (cmd.Invoke? ==> Informed(p.chain, cmd.call, cmd.args))
    ensures var (q, out) := Exec(o, p, cmd);
            && Inv(cfg, base, o, q) && q.deployments == p.deployments && q.disk == p.disk && p.chain <= q.chain
            && (p.alive ==> (out.Some? <==> q.alive))
            && (out.Some? ==> q.chain == p.chain + [cmd.EffectOf(out.value)])
  {
    var q := Exec(o, p, cmd).0;
    if q.chain != p.chain {
      CallsInformedSnoc(p.chain, q.chain[|p.chain|], |base.chain|);
      assert q.chain == p.chain + [q.chain[|p.chain|]];
    }
    InvGrows(cfg, base, o, p, q);
  }

  /** Writing an entry that is in order keeps everything in order. */
  lemma WriteInv(cfg: seq<Contract>, base: Outside, o: Options, p: Process, c: Contract, e: Entry)
    requires Inv(cfg, base, o, p) && DistinctNames(cfg) && c in cfg && EntryOk(c, e, p.chain) && !o.dryRun
    requires var r := RecordOf(p.deployments, o.network);
             !o.force && c.name in r && r[c.name].contractId.Some? ==> e.contractId == r[c.name].contractId
    ensures Inv(cfg, base, o, Persist(o, SetEntry(o, p, c.name, e)))
    ensures RecordOf(SetEntry(o, p, c.name, e).deployments, o.network) ==
            RecordOf(p.deployments, o.network)[c.name := e]
  {
  }

  lemma CallsAtCons(before: seq<Effect>, after: seq<Effect>, name: string, id: string, calls: seq<Call>)
    requires calls != [] && before != [] && before <= after
    requires Ran(before[|before| - 1], name, id, calls[0])
    ensures CallsAt(after, |before|, name, id, calls[1..]) ==> CallsAt(after, |before| - 1, name, id, calls)
  {
    if CallsAt(after, |before|, name, id, calls[1..]) {
      var k: nat := |before| - 1;
      assert k + |calls| <= |after|;
      assert after[k] == before[k];
      forall i | 0 <= i < |calls|
        ensures Ran(after[k + i], name, id, calls[i])
      {
        if i > 0 {
          var j := i - 1;
          assert calls[1..][j] == calls[i];
          assert after[|before| + j] == after[k + i];
        }
      }
    }
  }

  /** Every effect from position `from` on is a call with recorded ids as arguments. */
  predicate CallsRecorded(r: Record, chain: seq<Effect>, from: nat) {
    forall k :: from <= k < |chain| ==> chain[k].Invoked? && Recorded(r, chain[k].call, chain[k].args)
  }

  lemma {:induction false} ResolveValues(o: Options, r: Record, needs: seq<string>)
    requires !o.dryRun && Resolve(o, r, needs).Some?
    ensures var args := Resolve(o, r, needs).value;
            && |args| == |needs|
            && forall i :: 0 <= i < |args| ==> needs[i] in r && r[needs[i]].contractId == Some(args[i])
  {
    if needs == [] {
    } else {
      ResolveValues(o, r, needs[1..]);
    }
  }

  lemma RecordedIsInformed(file: Records, network: string, chain: seq<Effect>, call: Call, args: seq<string>)
    requires IdsDeployed(file, chain) && Recorded(RecordOf(file, network), call, args)
    ensures Informed(chain, call, args)
  {
    var r := RecordOf(file, network);
    forall i | 0 <= i < |args|
      ensures WasDeployed(chain, call.needs[i], args[i])
    {
      assert Deployed(call.needs[i], r[call.needs[i]].wasmHash, args[i]) in chain;
    }
  }

  lemma InvokeOneInv(cfg: seq<Contract>, base: Outside, o: Options, p: Process, name: string, id: string, call: Call)
    requires Inv(cfg, base, o, p) && !o.dryRun && p.alive
    ensures var q := InvokeOne(o, p, name, id, call);
            && Inv(cfg, base, o, q) && q.deployments == p.deployments && q.disk == p.disk && p.chain <= q.chain
            && (q.alive ==> |q.chain| == |p.chain| + 1 && Ran(q.chain[|p.chain|], name, id, call))
  {
    var args := Resolve(o, RecordOf(p.deployments, o.network), call.needs);
    if args.Some? {
      assert Informed(p.chain, call, args.value) by {
        ResolveValues(o, RecordOf(p.deployments, o.network), call.needs);
        RecordedIsInformed(p.deployments, o.network, p.chain, call, args.value);
      }
      ExecInv(cfg, base, o, p, Invoke(name, id, call, args.value));
    }
  }

  lemma {:induction false} InvokeAllInv(cfg: seq<Contract>, base: Outside, o: Options, p: Process, name: string,
                                        id: string, calls: seq<Call>)
    requires Inv(cfg, base, o, p) && !o.dryRun && p.alive
    ensures var q := InvokeAll(o, p, name, id, calls);
            && Inv(cfg, base, o, q) && q.deployments == p.deployments && q.disk == p.disk && p.chain <= q.chain
            && (q.alive ==> CallsAt(q.chain, |p.chain|, name, id, calls))
    decreases |calls|
  {
    if calls == [] {
    } else {
      var q := InvokeOne(o, p, name, id, calls[0]);
      InvokeOneInv(cfg, base, o, p, name, id, calls[0]);
      if q.alive {
        InvokeAllInv(cfg, base, o, q, name, id, calls[1..]);
        CallsAtCons(q.chain, InvokeAll(o, q, name, id, calls[1..]).chain, name, id, calls);
      }
    }
  }

  /** The loop passes the ids that are recorded at that moment. */
  lemma {:induction false} InvokeAllRecorded(o: Options, p: Process, name: string, id: string, calls: seq<Call>)
    requires !o.dryRun
    ensures var q := InvokeAll(o, p, name, id, calls);
            && q.deployments == p.deployments && p.chain <= q.chain
            && CallsRecorded(RecordOf(p.deployments, o.network), q.chain, |p.chain|)
    decreases |calls|
  {
    if calls != [] && p.alive {
      var call, record := calls[0], RecordOf(p.deployments, o.network);
      var q := InvokeOne(o, p, name, id, call);
      var args := Resolve(o, record, call.needs);
      if args.Some? {
        ResolveValues(o, record, call.needs);
        assert q.chain == p.chain || q.chain == p.chain + [Invoked(name, id, call, args.value)];
      }
      InvokeAllRecorded(o, q, name, id, calls[1..]);
    }
  }

  lemma InitialiseInv(cfg: seq<Contract>, base: Outside, o: Options, p: Process, c: Contract)
    requires Inv(cfg, base, o, p) && DistinctNames(cfg) && c in cfg && !c.installOnly && !o.dryRun && p.alive
    ensures Inv(cfg, base, o, Initialise(o, p, c)) && p.chain <= Initialise(o, p, c).chain
  {
    var record := RecordOf(p.deployments, o.network);
    if !(c.name !in record || record[c.name].initialized || record[c.name].contractId.None?) {
      InvokeAllInv(cfg, base, o, p, c.name, record[c.name].contractId.value, c.calls);
      var q := InvokeAll(o, p, c.name, record[c.name].contractId.value, c.calls);
      if q.alive {
        WriteInv(cfg, base, o, q, c, record[c.name].(initialized := true));
      }
    }
  }

  lemma InstantiateInv(cfg: seq<Contract>, base: Outside, o: Options, p: Process, c: Contract)
    requires Inv(cfg, base, o, p) && DistinctNames(cfg) && c in cfg && !o.dryRun && p.alive
    requires !AlreadyDeployed(o, RecordOf(p.deployments, o.network), c)
    ensures Inv(cfg, base, o, Instantiate(o, p, c)) && p.chain <= Instantiate(o, p, c).chain
  {
    var (q, hash) := Exec(o, p, Upload(c.name));
    ExecInv(cfg, base, o, p, Upload(c.name));
    if hash.Some? {
      var e := Entry(hash.value, None, false);
      assert c.installOnly && c.name in RecordOf(p.deployments, o.network) ==>
          RecordOf(p.deployments, o.network)[c.name].contractId.None?;
      WriteInv(cfg, base, o, q, c, e);
      var installed := Persist(o, SetEntry(o, q, c.name, e));
      if !c.installOnly {
        var (r, id) := Exec(o, installed, Deploy(c.name, hash.value));
        ExecInv(cfg, base, o, installed, Deploy(c.name, hash.value));
        if id.Some? {
          WriteInv(cfg, base, o, r, c, Entry(hash.value, id, false));
        }
      }
    }
  }

  lemma DeployContractInv(cfg: seq<Contract>, base: Outside, o: Options, p: Process, c: Contract)
    requires Inv(cfg, base, o, p) && DistinctNames(cfg) && c in cfg && !o.dryRun && p.alive
    ensures Inv(cfg, base, o, DeployContract(o, p, c)) && p.chain <= DeployContract(o, p, c).chain
  {
    if AlreadyDeployed(o, RecordOf(p.deployments, o.network), c) {
      InitialiseInv(cfg, base, o, p, c);
    } else {
      InstantiateInv(cfg, base, o, p, c);
      var q := Instantiate(o, p, c);
      if q.alive && !c.installOnly {
        InitialiseInv(cfg, base, o, q, c);
      }
    }
  }

  lemma {:induction false} DeployAllInv(cfg: seq<Contract>, base: Outside, o: Options, p: Process, cs: seq<Contract>)
    requires Inv(cfg, base, o, p) && DistinctNames(cfg) && !o.dryRun
    requires forall c :: c in cs ==> c in cfg
    ensures Inv(cfg, base, o, DeployAll(o, p, cs)) && p.chain <= DeployAll(o, p, cs).chain
    decreases |cs|
  {
    if cs != [] && p.alive {
      if o.Selects(cs[0]) {
        DeployContractInv(cfg, base, o, p, cs[0]);
        DeployAllInv(cfg, base, o, DeployContract(o, p, cs[0]), cs[1..]);
      } else {
        DeployAllInv(cfg, base, o, p, cs[1..]);
      }
    }
  }

  lemma LoadInv(cfg: seq<Contract>, o: Options, w: Outside, replies: seq<Reply>)
    requires FileOk(cfg, w.disk, w.chain)
    ensures Inv(cfg, w, o, Load(o, w, replies))
  {
  }

  // ----- Dry runs -----

  lemma {:induction false} ResolveDry(o: Options, record: Record, needs: seq<string>)
    requires o.dryRun
    ensures Resolve(o, record, needs).Some?
  {
    if needs == [] {
    } else {
      ResolveDry(o, record, needs[1..]);
    }
  }

  /** An id that a dry run would have produced reads the same where it is used. */
  lemma DryRunIdsAgree(o: Options, name: string, hash: string)
    requires o.dryRun
    ensures Resolve(o, map[], [name]) == Some([Deploy(name, hash).Placeholder()])
  {
    assert [name][1..] == [] && Resolve(o, map[], []) == Some([]);
    assert ["<" + name + "-contract-id>"] + [] == ["<" + name + "-contract-id>"];
  }

  predicate SameOutside(p: Process, q: Process) {
    q.disk == p.disk && q.chain == p.chain && q.once == p.once && q.replies == p.replies && q.alive == p.alive
  }

  lemma {:induction false} InvokeAllDry(o: Options, p: Process, name: string, id: string, calls: seq<Call>)
    requires o.dryRun
    ensures InvokeAll(o, p, name, id, calls) == p
    decreases |calls|
  {
    if calls != [] && p.alive {
      ResolveDry(o, RecordOf(p.deployments, o.network), calls[0].needs);
      InvokeAllDry(o, p, name, id, calls[1..]);
    }
  }

  /** A dry run touches neither the file nor the network, and never gets stuck. */
  lemma {:induction false} DryRunTouchesNothing(o: Options, p: Process, cs: seq<Contract>)
    requires o.dryRun
    ensures SameOutside(p, DeployAll(o, p, cs))
    decreases |cs|
  {
    if cs != [] && p.alive {
      var c := cs[0];
      if o.Selects(c) {
        var q := if AlreadyDeployed(o, RecordOf(p.deployments, o.network), c) then p else Instantiate(o, p, c);
        assert SameOutside(p, q);
        var record := RecordOf(q.deployments, o.network);
        if c.name in record && record[c.name].contractId.Some? {
          InvokeAllDry(o, q, c.name, record[c.name].contractId.value, c.calls);
        }
        DryRunTouchesNothing(o, DeployContract(o, p, c), cs[1..]);
      } else {
        DryRunTouchesNothing(o, p, cs[1..]);
      }
    }
  }

  // ----- Any sequence of runs -----

  datatype Plan = Plan(o: Options, replies: seq<Reply>)

  function After(cfg: seq<Contract>, w: Outside, plan: Plan): Outside {
    var p := Run(cfg, plan.o, w, plan.replies);
    Outside(p.disk, p.chain, p.once)
  }

  function Campaign(cfg: seq<Contract>, w: Outside, plans: seq<Plan>): Outside
    decreases |plans|
  {
    if plans == [] then w else Campaign(cfg, After(cfg, w, plans[0]), plans[1..])
  }

  /** A run, wherever it is cut off, leaves a file in order. It keeps every recorded id
      unless it is forced, and never touches another network. */
  lemma RunIsSafe(cfg: seq<Contract>, w: Outside, plan: Plan, network: string)
    requires DistinctNames(cfg) && FileOk(cfg, w.disk, w.chain)
    ensures var w' := After(cfg, w, plan);
            && FileOk(cfg, w'.disk, w'.chain) && w.chain <= w'.chain && CallsInformed(w'.chain, |w.chain|)
            && (plan.o.network != network || plan.o.dryRun ==> RecordOf(w'.disk, network) == RecordOf(w.disk, network))
            && (!plan.o.force ==> KeepsIds(RecordOf(w.disk, network), RecordOf(w'.disk, network)))
  {
    var p := Load(plan.o, w, plan.replies);
    LoadInv(cfg, plan.o, w, plan.replies);
    if plan.o.dryRun {
      DryRunTouchesNothing(plan.o, p, cfg);
    } else {
      DeployAllInv(cfg, w, plan.o, p, cfg);
    }
  }

  lemma CallsInformedJoin(chain: seq<Effect>, more: seq<Effect>, from: nat)
    requires chain <= more && CallsInformed(chain, from) && CallsInformed(more, |chain|)
    ensures CallsInformed(more, from)
  {
    forall k | from <= k < |more| && more[k].Invoked?
      ensures Informed(more[..k], more[k].call, more[k].args)
    {
      if k < |chain| {
        assert more[..k] == chain[..k];
      }
    }
  }

  /** In any sequence of runs cut off anywhere: an initialised entry on disk has an id on
      which every init and setup call succeeded; an id never changes without force; the
      records of a network that no run names stay as they are. */
  lemma {:induction false} CampaignIsSafe(cfg: seq<Contract>, w: Outside, plans: seq<Plan>, network: string)
    requires DistinctNames(cfg) && FileOk(cfg, w.disk, w.chain)
    ensures var w' := Campaign(cfg, w, plans);
            && FileOk(cfg, w'.disk, w'.chain) && w.chain <= w'.chain && CallsInformed(w'.chain, |w.chain|)
            && ((forall i :: 0 <= i < |plans| ==> !plans[i].o.force || plans[i].o.network != network) ==>
                  KeepsIds(RecordOf(w.disk, network), RecordOf(w'.disk, network)))
            && ((forall i :: 0 <= i < |plans| ==> plans[i].o.network != network) ==>
                  RecordOf(w'.disk, network) == RecordOf(w.disk, network))
    decreases |plans|
  {
    if plans == [] {
    } else {
      var w1 := After(cfg, w, plans[0]);
      RunIsSafe(cfg, w, plans[0], network);
      CampaignIsSafe(cfg, w1, plans[1..], network);
      CallsInformedJoin(w1.chain, Campaign(cfg, w1, plans[1..]).chain, |w.chain|);
    }
  }

  // ----- Running again after a complete run -----

  /** Memory and disk agree on the network's record between two contracts. */
  predicate Synced(o: Options, p: Process) {
    RecordOf(p.disk, o.network) == RecordOf(p.deployments, o.network)
  }

  predicate Done(r: Record, c: Contract) {
    c.name in r && r[c.name].initialized && r[c.name].contractId.Some?
  }

  predicate SameAt(a: Record, b: Record, name: string) {
    (name in a <==> name in b) && (name in a ==> a[name] == b[name])
  }

  ghost predicate SameExcept(a: Record, b: Record, name: string) {
    forall d :: d != name ==> (d in a <==> d in b) && (d in a ==> a[d] == b[d])
  }

  lemma {:induction false} InvokeAllKeepsFile(o: Options, p: Process, name: string, id: string, calls: seq<Call>)
    ensures InvokeAll(o, p, name, id, calls).disk == p.disk
    ensures InvokeAll(o, p, name, id, calls).deployments == p.deployments
    decreases |calls|
  {
    if calls != [] && p.alive {
      InvokeAllKeepsFile(o, InvokeOne(o, p, name, id, calls[0]), name, id, calls[1..]);
    }
  }

  lemma InstantiateKeepsSync(o: Options, p: Process, c: Contract)
    requires !o.dryRun && p.alive && Synced(o, p) && Instantiate(o, p, c).alive
    ensures var q := Instantiate(o, p, c);
            var r := RecordOf(q.disk, o.network);
            && Synced(o, q)
            && SameExcept(RecordOf(p.disk, o.network), r, c.name)
            && c.name in r && (!c.installOnly ==> r[c.name].contractId.Some?)
            && (c.installOnly ==> exists hash :: q.chain == p.chain + [Uploaded(c.name, hash)])
  {
  }

  lemma InitialiseKeepsSync(o: Options, p: Process, c: Contract)
    requires !o.dryRun && p.alive && Synced(o, p) && Initialise(o, p, c).alive
    requires c.name in RecordOf(p.disk, o.network) && RecordOf(p.disk, o.network)[c.name].contractId.Some?
    ensures var q := Initialise(o, p, c);
            && Synced(o, q)
            && SameExcept(RecordOf(p.disk, o.network), RecordOf(q.disk, o.network), c.name)
            && Done(RecordOf(q.disk, o.network), c)
  {
    InvokeAllKeepsFile(o, p, c.name, RecordOf(p.disk, o.network)[c.name].contractId.value, c.calls);
  }

  lemma InstantiateWrites(o: Options, p: Process, c: Contract)
    requires !o.dryRun && Synced(o, p)
    ensures Synced(o, Instantiate(o, p, c))
  {
  }

  lemma InitialiseWrites(o: Options, p: Process, c: Contract)
    requires !o.dryRun && Synced(o, p)
    ensures Synced(o, Initialise(o, p, c))
  {
    var record := RecordOf(p.deployments, o.network);
    if c.name in record && record[c.name].contractId.Some? {
      InvokeAllKeepsFile(o, p, c.name, record[c.name].contractId.value, c.calls);
    }
  }

  lemma DeployContractWrites(o: Options, p: Process, c: Contract)
    requires !o.dryRun && Synced(o, p)
    ensures Synced(o, DeployContract(o, p, c))
  {
    InstantiateWrites(o, p, c);
    InitialiseWrites(o, p, c);
    InitialiseWrites(o, Instantiate(o, p, c), c);
  }

  /** Results are written after every step: wherever a run stops, the file holds what the process
      knows. */
  lemma {:induction false} FileIsCurrent(o: Options, p: Process, cs: seq<Contract>)
    requires !o.dryRun && Synced(o, p)
    ensures Synced(o, DeployAll(o, p, cs))
    decreases |cs|
  {
    if cs != [] && p.alive {
      DeployContractWrites(o, p, cs[0]);
      FileIsCurrent(o, if o.Selects(cs[0]) then DeployContract(o, p, cs[0]) else p, cs[1..]);
    }
  }

  /** A contract that the deployer gets through is done, on disk. */
  lemma DeployContractDone(o: Options, p: Process, c: Contract)
    requires !o.dryRun && p.alive && Synced(o, p) && DeployContract(o, p, c).alive
    ensures var q := DeployContract(o, p, c);
            && Synced(o, q)
            && SameExcept(RecordOf(p.disk, o.network), RecordOf(q.disk, o.network), c.name)
            && (!c.installOnly ==> Done(RecordOf(q.disk, o.network), c))
  {
    if AlreadyDeployed(o, RecordOf(p.deployments, o.network), c) {
      InitialiseKeepsSync(o, p, c);
    } else {
      InstantiateKeepsSync(o, p, c);
      if !c.installOnly {
        InitialiseKeepsSync(o, Instantiate(o, p, c), c);
      }
    }
  }

  lemma InstantiateDeploys(o: Options, p: Process, c: Contract)
    requires !o.dryRun && p.alive && !c.installOnly && Instantiate(o, p, c).alive
    ensures var q := Instantiate(o, p, c);
            var r := RecordOf(q.deployments, o.network);
            && c.name in r && r[c.name].contractId.Some? && !r[c.name].initialized
            && q.chain == p.chain + [Uploaded(c.name, r[c.name].wasmHash)]
                                  + [Deployed(c.name, r[c.name].wasmHash, r[c.name].contractId.value)]
  {
  }

  /** Under force a contract that is got through has a new instance: the recorded id was deployed
      in its own turn, from an upload of that turn. */
  lemma ForceRedeploys(o: Options, p: Process, c: Contract)
    requires !o.dryRun && o.force && !c.installOnly && p.alive && Synced(o, p) && DeployContract(o, p, c).alive
    ensures var q := DeployContract(o, p, c);
            var r := RecordOf(q.disk, o.network);
            && |q.chain| >= |p.chain| + 2 && Done(r, c)
            && q.chain[|p.chain|] == Uploaded(c.name, r[c.name].wasmHash)
            && q.chain[|p.chain| + 1] == Deployed(c.name, r[c.name].wasmHash, r[c.name].contractId.value)
  {
    DeployContractDone(o, p, c);
    InstantiateDeploys(o, p, c);
    var q := Instantiate(o, p, c);
    var e := RecordOf(q.deployments, o.network)[c.name];
    InvokeAllKeepsFile(o, q, c.name, e.contractId.value, c.calls);
    InvokeAllRecorded(o, q, c.name, e.contractId.value, c.calls);
  }

  ghost predicate AllDone(o: Options, r: Record, cs: seq<Contract>) {
    forall c :: c in cs && (o.only == {} || c.name in o.only) && !c.installOnly ==> Done(r, c)
  }

  lemma {:induction false} DeployAllDone(o: Options, p: Process, cs: seq<Contract>)
    requires !o.dryRun && p.alive && Synced(o, p) && DistinctNames(cs) && DeployAll(o, p, cs).alive
    ensures var r, r' := RecordOf(p.disk, o.network), RecordOf(DeployAll(o, p, cs).disk, o.network);
            && AllDone(o, r', cs)
            && (forall d :: (forall c :: c in cs ==> c.name != d) ==>
                  (d in r <==> d in r') && (d in r ==> r[d] == r'[d]))
    decreases |cs|
  {
    if cs == [] {
    } else {
      var q := if o.Selects(cs[0]) then DeployContract(o, p, cs[0]) else p;
      assert cs == [cs[0]] + cs[1..];
      assert q.alive;
      if o.Selects(cs[0]) {
        DeployContractDone(o, p, cs[0]);
      }
      DeployAllDone(o, q, cs[1..]);
      assert forall c :: c in cs[1..] ==> c.name != cs[0].name;
    }
  }

  /** Nothing from position `from` on concerns the contract of this name. */
  predicate Unmentioned(chain: seq<Effect>, from: nat, name: string) {
    forall k :: from <= k < |chain| ==> chain[k].name != name
  }

  /** From `p` to `q` no command concerns the contract `d`, and its entry stays. */
  predicate LeavesAlone(o: Options, p: Process, q: Process, d: string) {
    && p.chain <= q.chain && Unmentioned(q.chain, |p.chain|, d)
    && SameAt(RecordOf(p.deployments, o.network), RecordOf(q.deployments, o.network), d)
  }

  lemma LeavesThen(o: Options, p: Process, q: Process, r: Process, d: string)
    requires LeavesAlone(o, p, q, d) && LeavesAlone(o, q, r, d)
    ensures LeavesAlone(o, p, r, d)
  {
    forall k | |p.chain| <= k < |r.chain|
      ensures r.chain[k].name != d
    {
      assert k < |q.chain| ==> r.chain[k] == q.chain[k];
    }
  }

  lemma ExecLeavesAlone(o: Options, p: Process, cmd: Command, d: string)
    requires cmd.name != d
    ensures LeavesAlone(o, p, Exec(o, p, cmd).0, d)
  {
  }

  lemma WriteLeavesAlone(o: Options, p: Process, name: string, e: Entry, d: string)
    requires name != d
    ensures LeavesAlone(o, p, Persist(o, SetEntry(o, p, name, e)), d)
  {
  }

  lemma {:induction false} InvokeAllLeavesAlone(o: Options, p: Process, name: string, id: string, calls: seq<Call>,
                                                d: string)
    requires name != d
    ensures LeavesAlone(o, p, InvokeAll(o, p, name, id, calls), d)
    decreases |calls|
  {
    if calls != [] && p.alive {
      var q := InvokeOne(o, p, name, id, calls[0]);
      var args := Resolve(o, RecordOf(p.deployments, o.network), calls[0].needs);
      if args.Some? {
        ExecLeavesAlone(o, p, Invoke(name, id, calls[0], args.value), d);
      }
      InvokeAllLeavesAlone(o, q, name, id, calls[1..], d);
      LeavesThen(o, p, q, InvokeAll(o, q, name, id, calls[1..]), d);
    }
  }

  lemma InstantiateLeavesAlone(o: Options, p: Process, c: Contract, d: string)
    requires c.name != d
    ensures LeavesAlone(o, p, Instantiate(o, p, c), d)
  {
    var (q, hash) := Exec(o, p, Upload(c.name));
    ExecLeavesAlone(o, p, Upload(c.name), d);
    if hash.Some? {
      var e := Entry(hash.value, None, false);
      var installed := Persist(o, SetEntry(o, q, c.name, e));
      WriteLeavesAlone(o, q, c.name, e, d);
      LeavesThen(o, p, q, installed, d);
      if !c.installOnly {
        var (r, id) := Exec(o, installed, Deploy(c.name, hash.value));
        ExecLeavesAlone(o, installed, Deploy(c.name, hash.value), d);
        LeavesThen(o, p, installed, r, d);
        WriteLeavesAlone(o, r, c.name, Entry(hash.value, id, false), d);
        LeavesThen(o, p, r, Persist(o, SetEntry(o, r, c.name, Entry(hash.value, id, false))), d);
      }
    }
  }

  lemma InitialiseLeavesAlone(o: Options, p: Process, c: Contract, d: string)
    requires c.name != d
    ensures LeavesAlone(o, p, Initialise(o, p, c), d)
  {
    var record := RecordOf(p.deployments, o.network);
    if c.name in record && record[c.name].contractId.Some? {
      var e := record[c.name].(initialized := true);
      var q := InvokeAll(o, p, c.name, e.contractId.value, c.calls);
      InvokeAllLeavesAlone(o, p, c.name, e.contractId.value, c.calls, d);
      WriteLeavesAlone(o, q, c.name, e, d);
      LeavesThen(o, p, q, Persist(o, SetEntry(o, q, c.name, e)), d);
    }
  }

  lemma DeployContractLeavesAlone(o: Options, p: Process, c: Contract, d: string)
    requires c.name != d
    ensures LeavesAlone(o, p, DeployContract(o, p, c), d)
  {
    var q := Instantiate(o, p, c);
    InstantiateLeavesAlone(o, p, c, d);
    InitialiseLeavesAlone(o, p, c, d);
    InitialiseLeavesAlone(o, q, c, d);
    LeavesThen(o, p, q, Initialise(o, q, c), d);
  }

  /** With `--only`, contracts that are not named are left alone: no command concerns them, and
      their entries stay. */
  lemma {:induction false} OnlyNamedContracts(o: Options, p: Process, cs: seq<Contract>, d: string)
    requires o.only != {} && d !in o.only
    ensures LeavesAlone(o, p, DeployAll(o, p, cs), d)
    decreases |cs|
  {
    if cs != [] && p.alive {
      if o.Selects(cs[0]) {
        var q := DeployContract(o, p, cs[0]);
        DeployContractLeavesAlone(o, p, cs[0], d);
        OnlyNamedContracts(o, q, cs[1..], d);
        LeavesThen(o, p, q, DeployAll(o, q, cs[1..]), d);
      } else {
        OnlyNamedContracts(o, p, cs[1..], d);
      }
    }
  }

  predicate Installs(cs: seq<Contract>, name: string) { exists c :: c in cs && c.installOnly && c.name == name }

  /** The effects from `from` on are uploads of install-only contracts. */
  predicate OnlyInstalls(cs: seq<Contract>, chain: seq<Effect>, from: nat) {
    forall k :: from <= k < |chain| ==> chain[k].Uploaded? && Installs(cs, chain[k].name)
  }

  lemma DoneContractIsSkipped(o: Options, p: Process, c: Contract)
    requires !o.force && Done(RecordOf(p.deployments, o.network), c) && !c.installOnly
    ensures DeployContract(o, p, c) == p
  {
  }

  lemma InstallOnlyUploads(o: Options, p: Process, c: Contract)
    requires !o.dryRun && p.alive && Synced(o, p) && c.installOnly
    ensures var q := DeployContract(o, p, c);
            && p.chain <= q.chain && |q.chain| <= |p.chain| + 1
            && (|q.chain| > |p.chain| ==> q.chain[|p.chain|].Uploaded? && q.chain[|p.chain|].name == c.name)
            && (q.alive ==> Synced(o, q))
            && SameExcept(RecordOf(p.disk, o.network), RecordOf(q.disk, o.network), c.name)
  {
  }

  /** One contract of a re-run: an upload at most, and only if it is installed only. */
  lemma RerunStep(o: Options, p: Process, c: Contract)
    requires !o.dryRun && !o.force && p.alive && Synced(o, p) && o.Selects(c)
    requires !c.installOnly ==> Done(RecordOf(p.disk, o.network), c)
    ensures var q := DeployContract(o, p, c);
            && (q.alive ==> Synced(o, q)) && p.chain <= q.chain
            && (!c.installOnly ==> q == p)
            && OnlyInstalls([c], q.chain, |p.chain|)
            && SameExcept(RecordOf(p.disk, o.network), RecordOf(q.disk, o.network), c.name)
  {
    if c.installOnly {
      InstallOnlyUploads(o, p, c);
      assert c in [c] && Installs([c], c.name);
    } else {
      DoneContractIsSkipped(o, p, c);
    }
  }

  lemma OnlyInstallsMore(cs: seq<Contract>, all: seq<Contract>, chain: seq<Effect>, from: nat, to: nat,
                         more: seq<Effect>)
    requires OnlyInstalls(cs, chain, from) && OnlyInstalls(all, more, to) && chain <= more && to == |chain|
    requires forall c :: c in cs ==> c in all
    ensures OnlyInstalls(all, more, from)
  {
    forall k | from <= k < |more|
      ensures more[k].Uploaded? && Installs(all, more[k].name)
    {
      if k < to {
        assert more[k] == chain[k];
        var c :| c in cs && c.installOnly && c.name == chain[k].name;
        assert c in all;
      }
    }
  }

  ghost predicate RerunQuiet(o: Options, p: Process, q: Process, all: seq<Contract>, d: string) {
    p.chain <= q.chain && OnlyInstalls(all, q.chain, |p.chain|) &&
    ((forall c :: c in all && c.installOnly ==> c.name != d) ==>
       SameAt(RecordOf(p.disk, o.network), RecordOf(q.disk, o.network), d))
  }

  lemma QuietThen(o: Options, p: Process, q: Process, r: Process, c: Contract, all: seq<Contract>, d: string)
    requires p.chain <= q.chain && OnlyInstalls([c], q.chain, |p.chain|) && c in all
    requires SameExcept(RecordOf(p.disk, o.network), RecordOf(q.disk, o.network), c.name)
    requires !c.installOnly ==> q == p
    requires RerunQuiet(o, q, r, all, d)
    ensures RerunQuiet(o, p, r, all, d)
  {
    OnlyInstallsMore([c], all, q.chain, |p.chain|, |q.chain|, r.chain);
    if forall e :: e in all && e.installOnly ==> e.name != d {
      assert SameAt(RecordOf(p.disk, o.network), RecordOf(q.disk, o.network), d);
    }
  }

  lemma {:induction false} RerunIsQuiet(o: Options, p: Process, cs: seq<Contract>, all: seq<Contract>, d: string)
    requires !o.dryRun && !o.force && p.alive && Synced(o, p) && DistinctNames(cs)
    requires forall c :: c in cs ==> c in all
    requires AllDone(o, RecordOf(p.disk, o.network), cs)
    ensures RerunQuiet(o, p, DeployAll(o, p, cs), all, d)
    decreases |cs|
  {
    if cs == [] {
    } else {
      var c := cs[0];
      assert c in cs && forall e :: e in cs[1..] ==> e in cs && e.name != c.name;
      if !o.Selects(c) {
        RerunIsQuiet(o, p, cs[1..], all, d);
      } else {
        var q := DeployContract(o, p, c);
        RerunStep(o, p, c);
        if q.alive {
          RerunIsQuiet(o, q, cs[1..], all, d);
        }
        QuietThen(o, p, q, DeployAll(o, q, cs[1..]), c, all, d);
      }
    }
  }

  /** After a run that got to its end, an unforced run with the same selection, whatever its
      replies, uploads nothing but install-only contracts, deploys and invokes nothing, and
      leaves the records of all other contracts as they are. */
  lemma SecondRunDoesNothing(cfg: seq<Contract>, o: Options, again: Options, w: Outside, first: seq<Reply>,
                             second: seq<Reply>)
    requires DistinctNames(cfg)
    requires !o.dryRun && !again.dryRun && !again.force && again.network == o.network && again.only == o.only
    requires Run(cfg, o, w, first).alive
    ensures var w1 := After(cfg, w, Plan(o, first));
            var w2 := After(cfg, w1, Plan(again, second));
            && OnlyInstalls(cfg, w2.chain, |w1.chain|) && w1.chain <= w2.chain
            && (forall c :: c in cfg && !c.installOnly && o.Selects(c) ==>
                  var r1, r2 := RecordOf(w1.disk, o.network), RecordOf(w2.disk, o.network);
                  Done(r1, c) && c.name in r2 && r2[c.name] == r1[c.name])
  {
    DeployAllDone(o, Load(o, w, first), cfg);
    var w1 := After(cfg, w, Plan(o, first));
    var p := Load(again, w1, second);
    RerunIsQuiet(again, p, cfg, cfg, "");
    forall c | c in cfg && !c.installOnly && o.Selects(c)
      ensures SameAt(RecordOf(w1.disk, o.network), RecordOf(DeployAll(again, p, cfg).disk, o.network), c.name)
    {
      RerunIsQuiet(again, p, cfg, cfg, c.name);
      assert forall d :: d in cfg && d.installOnly ==> d.name != c.name;
    }
  }

  // ----- What a command leaves alone -----

  lemma CalledSnoc(chain: seq<Effect>, e: Effect, name: string, id: string)
    ensures Called(chain + [e], name, id) ==
            Called(chain, name, id) + if e.Invoked? && e.name == name && e.id == id then {e.call.fn} else {}
  {
    assert (chain + [e])[..|chain|] == chain;
  }

  lemma {:induction false} CalledGrows(chain: seq<Effect>, more: seq<Effect>, name: string, id: string)
    requires chain <= more
    ensures Called(chain, name, id) <= Called(more, name, id)
    decreases |more|
  {
    if |chain| == |more| {
      assert chain == more;
    } else {
      CalledGrows(chain, more[..|more| - 1], name, id);
    }
  }

  ghost predicate CalledElsewhere(chain: seq<Effect>, more: seq<Effect>, name: string) {
    forall n, id :: n != name ==> Called(more, n, id) == Called(chain, n, id)
  }

  /** From `p` to `q` only the contract of this name was dealt with. */
  ghost predicate LocalTo(o: Options, p: Process, q: Process, name: string) {
    && q.once == p.once && CalledElsewhere(p.chain, q.chain, name)
    && SameExcept(RecordOf(p.deployments, o.network), RecordOf(q.deployments, o.network), name)
    && (forall r :: r in q.replies ==> r in p.replies)
  }

  lemma LocalThen(o: Options, p: Process, q: Process, r: Process, name: string)
    requires LocalTo(o, p, q, name) && LocalTo(o, q, r, name)
    ensures LocalTo(o, p, r, name)
  {
  }

  lemma ExecLocal(o: Options, p: Process, cmd: Command)
    ensures LocalTo(o, p, Exec(o, p, cmd).0, cmd.name)
  {
    var q := Exec(o, p, cmd).0;
    if q.chain != p.chain {
      var e := q.chain[|p.chain|];
      assert q.chain == p.chain + [e];
      forall n, id | n != cmd.name
        ensures Called(q.chain, n, id) == Called(p.chain, n, id)
      {
        CalledSnoc(p.chain, e, n, id);
      }
    }
  }

  lemma WriteLocal(o: Options, p: Process, name: string, e: Entry)
    ensures LocalTo(o, p, Persist(o, SetEntry(o, p, name, e)), name)
  {
  }

  // ----- A run that nothing stops gets to its end -----

  function Ids(r: Record): set<string> { set n | n in r && r[n].contractId.Some? }

  function Initialised(r: Record): set<string> { set n | n in r && r[n].initialized }

  /** The replies that never stop a run. */
  predicate AllSucceed(replies: seq<Reply>) { forall r :: r in replies ==> r.Success? }

  function CallsNeed(calls: seq<Call>): set<string> {
    if calls == [] then {} else (set n | n in calls[0].needs) + CallsNeed(calls[1..])
  }

  /** Commands that one contract takes at most. */
  function Cost(c: Contract): nat { 2 + |c.calls| }

  function TotalCost(cs: seq<Contract>): nat { if cs == [] then 0 else Cost(cs[0]) + TotalCost(cs[1..]) }

  predicate Skips(o: Options, ids: set<string>, done: set<string>, c: Contract) {
    !o.force && c.name in ids && c.name in done
  }

  /** The ids that the calls of a contract mention are there once it is deployed itself. */
  predicate Deployable(o: Options, ids: set<string>, done: set<string>, c: Contract) {
    c.installOnly || Skips(o, ids, done, c) || CallsNeed(c.calls) <= ids + {c.name}
  }

  function NamesAfter(names: set<string>, c: Contract): set<string> {
    if c.installOnly then names - {c.name} else names + {c.name}
  }

  /** Every selected contract is deployable when its turn comes; `ids` and `done` are the names
      with an id and the initialised ones before. */
  predicate Ready(o: Options, ids: set<string>, done: set<string>, cs: seq<Contract>)
    decreases |cs|
  {
    cs == [] ||
    (if o.Selects(cs[0])
     then Deployable(o, ids, done, cs[0]) && Ready(o, NamesAfter(ids, cs[0]), NamesAfter(done, cs[0]), cs[1..])
     else Ready(o, ids, done, cs[1..]))
  }

  /** None of the calls is refused, given the functions already called on the instance. */
  predicate NotRefused(once: set<string>, called: set<string>, calls: seq<Call>)
    decreases |calls|
  {
    calls == [] ||
    (!(calls[0].fn in once && calls[0].fn in called) && NotRefused(once, called + {calls[0].fn}, calls[1..]))
  }

  /** No function that is taken only once occurs twice. */
  predicate OnceEach(once: set<string>, calls: seq<Call>) {
    forall i, j :: 0 <= i < j < |calls| && calls[i].fn == calls[j].fn ==> calls[i].fn !in once
  }

  lemma OnceEachRest(once: set<string>, calls: seq<Call>)
    requires calls != [] && !OnceEach(once, calls)
    ensures !OnceEach(once, calls[1..]) ||
            (calls[0].fn in once && exists call :: call in calls[1..] && call.fn == calls[0].fn)
  {
    var i, j :| 0 <= i < j < |calls| && calls[i].fn == calls[j].fn && calls[i].fn in once;
    var rest := calls[1..];
    assert rest[j - 1] == calls[j];
    if i > 0 {
      assert rest[i - 1] == calls[i];
    }
  }

  lemma {:induction false} NotRefusedExactly(once: set<string>, called: set<string>, calls: seq<Call>)
    ensures NotRefused(once, called, calls) <==>
            && OnceEach(once, calls)
            && forall call :: call in calls && call.fn in once ==> call.fn !in called
    decreases |calls|
  {
    if calls == [] {
    } else {
      var fn, rest := calls[0].fn, calls[1..];
      NotRefusedExactly(once, called + {fn}, rest);
      assert forall call :: call in calls <==> call == calls[0] || call in rest;
      if OnceEach(once, calls) {
        assert forall i :: 0 <= i < |rest| ==> rest[i] == calls[i + 1];
        assert fn in once ==> forall call :: call in rest ==> call.fn != fn;
      } else {
        OnceEachRest(once, calls);
      }
    }
  }

  /** The functions called on the instance that an unforced run goes on with. */
  function CalledBefore(o: Options, r: Record, chain: seq<Effect>, c: Contract): set<string> {
    if AlreadyDeployed(o, r, c) then Called(chain, c.name, r[c.name].contractId.value) else {}
  }

  /** The network takes all the calls that a run makes for this contract. */
  predicate Accepted(o: Options, r: Record, chain: seq<Effect>, once: set<string>, c: Contract) {
    c.installOnly || Skips(o, Ids(r), Initialised(r), c) || NotRefused(once, CalledBefore(o, r, chain, c), c.calls)
  }

  predicate AcceptedAt(o: Options, p: Process, c: Contract) {
    Accepted(o, RecordOf(p.deployments, o.network), p.chain, p.once, c)
  }

  /** The outputs to come are no instances on which the contract was already called. */
  ghost predicate FreshFor(p: Process, name: string) {
    forall r :: r in p.replies && r.Success? ==> Called(p.chain, name, r.output) !! p.once
  }

  lemma LocalKeepsOthers(o: Options, p: Process, q: Process, name: string, c: Contract)
    requires LocalTo(o, p, q, name) && c.name != name
    ensures AcceptedAt(o, q, c) == AcceptedAt(o, p, c)
    ensures FreshFor(p, c.name) ==> FreshFor(q, c.name)
  {
  }

  lemma {:induction false} ResolveExactly(o: Options, r: Record, needs: seq<string>)
    requires !o.dryRun
    ensures Resolve(o, r, needs).Some? <==> forall n :: n in needs ==> n in Ids(r)
  {
    if needs == [] {
    } else {
      ResolveExactly(o, r, needs[1..]);
      assert Resolve(o, r, needs).Some? <==> needs[0] in Ids(r) && Resolve(o, r, needs[1..]).Some?;
      assert needs[0] in needs && forall n :: n in needs[1..] ==> n in needs;
      assert forall n :: n in needs ==> n == needs[0] || n in needs[1..];
    }
  }

  lemma ExecSucceeds(o: Options, p: Process, cmd: Command)
    requires !o.dryRun && p.alive && AllSucceed(p.replies) && p.replies != [] && !Refused(p.chain, p.once, cmd)
    ensures var (q, out) := Exec(o, p, cmd);
            && out.Some? && q.alive && q.deployments == p.deployments
            && AllSucceed(q.replies) && |q.replies| == |p.replies| - 1 && Success(out.value) in p.replies
            && q.chain == p.chain + [cmd.EffectOf(out.value)] && q.once == p.once
  {
    assert p.replies[0] in p.replies;
  }

  lemma {:induction false} InvokeAllExactly(o: Options, p: Process, name: string, id: string, calls: seq<Call>)
    requires !o.dryRun && p.alive && AllSucceed(p.replies) && |p.replies| >= |calls|
    ensures var q := InvokeAll(o, p, name, id, calls);
            && q.deployments == p.deployments && LocalTo(o, p, q, name)
            && (q.alive <==>
                  && CallsNeed(calls) <= Ids(RecordOf(p.deployments, o.network))
                  && NotRefused(p.once, Called(p.chain, name, id), calls))
            && (q.alive ==> AllSucceed(q.replies) && |q.replies| == |p.replies| - |calls|)
    decreases |calls|
  {
    if calls == [] {
    } else {
      var record := RecordOf(p.deployments, o.network);
      var args := Resolve(o, record, calls[0].needs);
      ResolveExactly(o, record, calls[0].needs);
      if args.Some? {
        var cmd := Invoke(name, id, calls[0], args.value);
        ExecLocal(o, p, cmd);
        if !Refused(p.chain, p.once, cmd) {
          var q := InvokeOne(o, p, name, id, calls[0]);
          ExecSucceeds(o, p, cmd);
          CalledSnoc(p.chain, Invoked(name, id, calls[0], args.value), name, id);
          InvokeAllExactly(o, q, name, id, calls[1..]);
          LocalThen(o, p, q, InvokeAll(o, q, name, id, calls[1..]), name);
        }
      }
    }
  }

  /** What a process looks like to the rest of the run. */
  predicate Stands(o: Options, p: Process, ids: set<string>, done: set<string>, replies: nat) {
    && p.alive && AllSucceed(p.replies) && |p.replies| >= replies
    && Ids(RecordOf(p.deployments, o.network)) == ids
    && Initialised(RecordOf(p.deployments, o.network)) == done
  }

  lemma SetEntryStands(o: Options, p: Process, name: string, e: Entry)
    requires !o.dryRun
    ensures var r := RecordOf(p.deployments, o.network);
            var r' := RecordOf(Persist(o, SetEntry(o, p, name, e)).deployments, o.network);
            && r' == r[name := e]
            && Ids(r') == (if e.contractId.Some? then Ids(r) + {name} else Ids(r) - {name})
            && Initialised(r') == (if e.initialized then Initialised(r) + {name} else Initialised(r) - {name})
  {
  }

  /** A fresh instance exists afterwards, on which nothing was called that is taken only once. */
  lemma InstantiateSucceeds(o: Options, p: Process, c: Contract, ids: set<string>, done: set<string>, n: nat)
    requires !o.dryRun && Stands(o, p, ids, done, n + 2) && FreshFor(p, c.name)
    ensures var q := Instantiate(o, p, c);
            && Stands(o, q, NamesAfter(ids, c), done - {c.name}, n) && LocalTo(o, p, q, c.name)
            && (!c.installOnly ==>
                  var r := RecordOf(q.deployments, o.network);
                  && c.name in r && r[c.name].contractId.Some?
                  && Called(q.chain, c.name, r[c.name].contractId.value) !! q.once)
  {
    var upload := Upload(c.name);
    var (q, hash) := Exec(o, p, upload);
    ExecSucceeds(o, p, upload);
    ExecLocal(o, p, upload);
    var e := Entry(hash.value, None, false);
    SetEntryStands(o, q, c.name, e);
    WriteLocal(o, q, c.name, e);
    var installed := Persist(o, SetEntry(o, q, c.name, e));
    LocalThen(o, p, q, installed, c.name);
    if !c.installOnly {
      var deploy := Deploy(c.name, hash.value);
      var (r, id) := Exec(o, installed, deploy);
      ExecSucceeds(o, installed, deploy);
      ExecLocal(o, installed, deploy);
      LocalThen(o, p, installed, r, c.name);
      SetEntryStands(o, r, c.name, Entry(hash.value, id, false));
      WriteLocal(o, r, c.name, Entry(hash.value, id, false));
      LocalThen(o, p, r, Instantiate(o, p, c), c.name);
      assert ids - {c.name} + {c.name} == ids + {c.name};
      CalledSnoc(p.chain, upload.EffectOf(hash.value), c.name, id.value);
      CalledSnoc(q.chain, deploy.EffectOf(id.value), c.name, id.value);
      assert Success(id.value) in p.replies;
    }
  }

  lemma InitialiseExactly(o: Options, p: Process, c: Contract, ids: set<string>, done: set<string>, n: nat)
    requires !o.dryRun && Stands(o, p, ids, done, n + |c.calls|) && c.name in ids
    ensures var q := Initialise(o, p, c);
            var id := RecordOf(p.deployments, o.network)[c.name].contractId.value;
            && (q.alive <==>
                  || c.name in done
                  || (CallsNeed(c.calls) <= ids && NotRefused(p.once, Called(p.chain, c.name, id), c.calls)))
            && LocalTo(o, p, q, c.name)
            && (q.alive ==> Stands(o, q, ids, done + {c.name}, n))
  {
    var record := RecordOf(p.deployments, o.network);
    if c.name in done {
      assert done + {c.name} == done;
    } else {
      var id := record[c.name].contractId.value;
      InvokeAllExactly(o, p, c.name, id, c.calls);
      var q, e := InvokeAll(o, p, c.name, id, c.calls), record[c.name].(initialized := true);
      SetEntryStands(o, q, c.name, e);
      WriteLocal(o, q, c.name, e);
      LocalThen(o, p, q, Persist(o, SetEntry(o, q, c.name, e)), c.name);
      assert ids + {c.name} == ids;
    }
  }

  lemma FreshIsNotRefused(once: set<string>, called: set<string>, calls: seq<Call>)
    requires called !! once
    ensures NotRefused(once, called, calls) == NotRefused(once, {}, calls)
  {
    NotRefusedExactly(once, called, calls);
    NotRefusedExactly(once, {}, calls);
  }

  lemma DeployContractExactly(o: Options, p: Process, c: Contract, ids: set<string>, done: set<string>, n: nat)
    requires !o.dryRun && Stands(o, p, ids, done, n + Cost(c)) && FreshFor(p, c.name)
    ensures var q := DeployContract(o, p, c);
            && (q.alive <==> Deployable(o, ids, done, c) && AcceptedAt(o, p, c))
            && LocalTo(o, p, q, c.name)
            && (q.alive ==> Stands(o, q, NamesAfter(ids, c), NamesAfter(done, c), n))
  {
    if AlreadyDeployed(o, RecordOf(p.deployments, o.network), c) {
      assert c.name in ids && ids + {c.name} == ids;
      InitialiseExactly(o, p, c, ids, done, n);
    } else {
      var q := Instantiate(o, p, c);
      InstantiateSucceeds(o, p, c, ids, done, n + |c.calls|);
      if !c.installOnly {
        var id := RecordOf(q.deployments, o.network)[c.name].contractId.value;
        InitialiseExactly(o, q, c, ids + {c.name}, done - {c.name}, n);
        FreshIsNotRefused(p.once, Called(q.chain, c.name, id), c.calls);
        LocalThen(o, p, q, Initialise(o, q, c), c.name);
        assert done - {c.name} + {c.name} == done + {c.name};
      }
    }
  }

  ghost predicate AllAccepted(o: Options, p: Process, cs: seq<Contract>) {
    forall c :: c in cs && o.Selects(c) ==> AcceptedAt(o, p, c)
  }

  lemma OthersAccepted(o: Options, p: Process, q: Process, cs: seq<Contract>)
    requires cs != [] && DistinctNames(cs) && LocalTo(o, p, q, cs[0].name)
    requires forall c :: c in cs ==> FreshFor(p, c.name)
    ensures AllAccepted(o, q, cs[1..]) == AllAccepted(o, p, cs[1..])
    ensures forall c :: c in cs[1..] ==> FreshFor(q, c.name)
  {
    forall c | c in cs[1..]
      ensures AcceptedAt(o, q, c) == AcceptedAt(o, p, c) && FreshFor(q, c.name)
    {
      LocalKeepsOthers(o, p, q, cs[0].name, c);
    }
  }

  lemma {:induction false} DeployAllExactly(o: Options, p: Process, cs: seq<Contract>, ids: set<string>,
                                            done: set<string>)
    requires !o.dryRun && Stands(o, p, ids, done, TotalCost(cs)) && DistinctNames(cs)
    requires forall c :: c in cs ==> FreshFor(p, c.name)
    ensures DeployAll(o, p, cs).alive <==> Ready(o, ids, done, cs) && AllAccepted(o, p, cs)
    decreases |cs|
  {
    if cs == [] {
    } else {
      var c := cs[0];
      assert forall d :: d in cs <==> d == c || d in cs[1..];
      if o.Selects(c) {
        var q := DeployContract(o, p, c);
        DeployContractExactly(o, p, c, ids, done, TotalCost(cs[1..]));
        OthersAccepted(o, p, q, cs);
        if q.alive {
          DeployAllExactly(o, q, cs[1..], NamesAfter(ids, c), NamesAfter(done, c));
        }
      } else {
        DeployAllExactly(o, p, cs[1..], ids, done);
      }
    }
  }

  /** Nothing but missing ids and refused calls can stop a run with these replies: the commands
      succeed otherwise, they are enough, and the ids they yield are new. */
  ghost predicate Unhindered(cfg: seq<Contract>, o: Options, w: Outside, replies: seq<Reply>) {
    && !o.dryRun && AllSucceed(replies) && |replies| >= TotalCost(cfg)
    && forall c :: c in cfg ==> FreshFor(Load(o, w, replies), c.name)
  }

  /** Exactly when an unhindered run gets to its end, from any file and network: each selected
      contract finds the ids it needs in its turn, and none of its calls is refused. All
      selected contracts are then done. */
  lemma RunCompletesExactly(cfg: seq<Contract>, o: Options, w: Outside, replies: seq<Reply>)
    requires DistinctNames(cfg) && Unhindered(cfg, o, w, replies)
    ensures var r := RecordOf(w.disk, o.network);
            var q := Run(cfg, o, w, replies);
            && (q.alive <==>
                  && Ready(o, Ids(r), Initialised(r), cfg)
                  && forall c :: c in cfg && o.Selects(c) ==> Accepted(o, r, w.chain, w.once, c))
            && (q.alive ==> AllDone(o, RecordOf(q.disk, o.network), cfg))
  {
    var r, p := RecordOf(w.disk, o.network), Load(o, w, replies);
    assert RecordOf(p.deployments, o.network) == r;
    DeployAllExactly(o, p, cfg, Ids(r), Initialised(r));
    if DeployAll(o, p, cfg).alive {
      DeployAllDone(o, p, cfg);
    }
  }

  function WithInstance(names: set<string>, c: Contract): set<string> {
    if c.installOnly then names else names + {c.name}
  }

  /** Every call needs ids only of contracts listed earlier, or of its own contract. */
  predicate InOrder(before: set<string>, cs: seq<Contract>)
    decreases |cs|
  {
    cs == [] ||
    (&& (cs[0].installOnly || CallsNeed(cs[0].calls) <= before + {cs[0].name})
     && InOrder(WithInstance(before, cs[0]), cs[1..]))
  }

  lemma {:induction false} OrderIsReady(o: Options, before: set<string>, ids: set<string>, done: set<string>,
                                        cs: seq<Contract>)
    requires o.only == {} && InOrder(before, cs) && before <= ids && DistinctNames(cs)
    requires forall c :: c in cs && c.installOnly ==> c.name !in before
    ensures Ready(o, ids, done, cs)
    decreases |cs|
  {
    if cs == [] {
    } else {
      var c := cs[0];
      assert c in cs && forall d :: d in cs[1..] ==> d in cs && d.name != c.name;
      OrderIsReady(o, WithInstance(before, c), NamesAfter(ids, c), NamesAfter(done, c), cs[1..]);
    }
  }

  // ----- Half-done contracts -----

  /** The contract has an instance that is not noted as initialised, although a function that it
      takes only once has already been called on it. */
  ghost predicate HalfDone(w: Outside, network: string, c: Contract) {
    var r := RecordOf(w.disk, network);
    && !c.installOnly && c.name in r && r[c.name].contractId.Some? && !r[c.name].initialized
    && exists call :: call in c.calls && call.fn in w.once &&
                      call.fn in Called(w.chain, c.name, r[c.name].contractId.value)
  }

  lemma AcceptedExactly(o: Options, w: Outside, c: Contract)
    requires !o.force && OnceEach(w.once, c.calls)
    ensures Accepted(o, RecordOf(w.disk, o.network), w.chain, w.once, c) <==> !HalfDone(w, o.network, c)
  {
    var r := RecordOf(w.disk, o.network);
    NotRefusedExactly(w.once, CalledBefore(o, r, w.chain, c), c.calls);
  }

  /** Exactly when a failed run can simply be re-run: for a configuration in order, an unhindered
      run over all contracts gets to its end, with every contract initialised, if and only if no
      contract is half done. */
  lemma RerunCompletesExactly(cfg: seq<Contract>, o: Options, w: Outside, replies: seq<Reply>)
    requires DistinctNames(cfg) && InOrder({}, cfg) && forall c :: c in cfg ==> OnceEach(w.once, c.calls)
    requires Unhindered(cfg, o, w, replies) && o.only == {} && !o.force
    ensures var q := Run(cfg, o, w, replies);
            && (q.alive <==> forall c :: c in cfg ==> !HalfDone(w, o.network, c))
            && (q.alive ==> forall c :: c in cfg && !c.installOnly ==> Done(RecordOf(q.disk, o.network), c))
  {
    var r := RecordOf(w.disk, o.network);
    OrderIsReady(o, {}, Ids(r), Initialised(r), cfg);
    RunCompletesExactly(cfg, o, w, replies);
    forall c | c in cfg
      ensures Accepted(o, r, w.chain, w.once, c) <==> !HalfDone(w, o.network, c)
    {
      AcceptedExactly(o, w, c);
    }
  }

  lemma InvokeOneGrows(o: Options, p: Process, name: string, id: string, call: Call)
    ensures var q := InvokeOne(o, p, name, id, call); p.chain <= q.chain && q.once == p.once
  {
  }

  lemma {:induction false} InvokeAllGrows(o: Options, p: Process, name: string, id: string, calls: seq<Call>)
    ensures var q := InvokeAll(o, p, name, id, calls); p.chain <= q.chain && q.once == p.once
    decreases |calls|
  {
    if calls != [] && p.alive {
      InvokeOneGrows(o, p, name, id, calls[0]);
      InvokeAllGrows(o, InvokeOne(o, p, name, id, calls[0]), name, id, calls[1..]);
    }
  }

  /** Calls among which one is refused are not got through, whatever the replies. */
  lemma {:induction false} RefusedStops(o: Options, p: Process, name: string, id: string, calls: seq<Call>, k: nat)
    requires !o.dryRun && k < |calls| && calls[k].fn in p.once && calls[k].fn in Called(p.chain, name, id)
    ensures !InvokeAll(o, p, name, id, calls).alive
    decreases |calls|
  {
    if p.alive {
      var q := InvokeOne(o, p, name, id, calls[0]);
      InvokeOneGrows(o, p, name, id, calls[0]);
      CalledGrows(p.chain, q.chain, name, id);
      if k > 0 {
        RefusedStops(o, q, name, id, calls[1..], k - 1);
      }
    }
  }

  /** The half-done contract `c` with its entry `e`, in memory and on disk. */
  ghost predicate Stuck(network: string, p: Process, c: Contract, e: Entry) {
    && c.name in RecordOf(p.deployments, network) && RecordOf(p.deployments, network)[c.name] == e
    && c.name in RecordOf(p.disk, network) && RecordOf(p.disk, network)[c.name] == e
    && e.contractId.Some? && !e.initialized
    && exists k :: 0 <= k < |c.calls| && c.calls[k].fn in p.once &&
                   c.calls[k].fn in Called(p.chain, c.name, e.contractId.value)
  }

  lemma StuckGrows(network: string, p: Process, q: Process, c: Contract, e: Entry)
    requires Stuck(network, p, c, e) && p.chain <= q.chain && q.once == p.once
    requires RecordOf(q.deployments, network) == RecordOf(p.deployments, network)
    requires RecordOf(q.disk, network) == RecordOf(p.disk, network)
    ensures Stuck(network, q, c, e)
  {
    CalledGrows(p.chain, q.chain, c.name, e.contractId.value);
  }

  lemma WriteKeepsStuck(network: string, o: Options, p: Process, name: string, d: Entry, c: Contract, e: Entry)
    requires Stuck(network, p, c, e) && (o.network != network || name != c.name)
    ensures Stuck(network, Persist(o, SetEntry(o, p, name, d)), c, e)
  {
  }

  lemma ExecKeepsStuck(network: string, o: Options, p: Process, cmd: Command, c: Contract, e: Entry)
    requires Stuck(network, p, c, e)
    ensures Stuck(network, Exec(o, p, cmd).0, c, e)
  {
    StuckGrows(network, p, Exec(o, p, cmd).0, c, e);
  }

  lemma InitialiseKeepsStuck(network: string, o: Options, p: Process, d: Contract, c: Contract, e: Entry)
    requires Stuck(network, p, c, e) && (o.network != network || d.name != c.name)
    ensures Stuck(network, Initialise(o, p, d), c, e)
  {
    var record := RecordOf(p.deployments, o.network);
    if d.name in record && record[d.name].contractId.Some? {
      var id := record[d.name].contractId.value;
      var q := InvokeAll(o, p, d.name, id, d.calls);
      InvokeAllGrows(o, p, d.name, id, d.calls);
      InvokeAllKeepsFile(o, p, d.name, id, d.calls);
      StuckGrows(network, p, q, c, e);
      WriteKeepsStuck(network, o, q, d.name, record[d.name].(initialized := true), c, e);
    }
  }

  lemma InstantiateKeepsStuck(network: string, o: Options, p: Process, d: Contract, c: Contract, e: Entry)
    requires Stuck(network, p, c, e) && (o.network != network || d.name != c.name)
    ensures Stuck(network, Instantiate(o, p, d), c, e)
  {
    var (q, hash) := Exec(o, p, Upload(d.name));
    ExecKeepsStuck(network, o, p, Upload(d.name), c, e);
    if hash.Some? {
      var installed := Persist(o, SetEntry(o, q, d.name, Entry(hash.value, None, false)));
      WriteKeepsStuck(network, o, q, d.name, Entry(hash.value, None, false), c, e);
      var (r, id) := Exec(o, installed, Deploy(d.name, hash.value));
      ExecKeepsStuck(network, o, installed, Deploy(d.name, hash.value), c, e);
      WriteKeepsStuck(network, o, r, d.name, Entry(hash.value, id, false), c, e);
    }
  }

  /** The turn of any contract leaves a half-done one as it is, and its own turn ends the run. */
  lemma TurnKeepsStuck(network: string, o: Options, p: Process, d: Contract, c: Contract, e: Entry)
    requires !o.dryRun && p.alive && Stuck(network, p, c, e) && !c.installOnly
    requires d == c || d.name != c.name
    requires d == c && o.network == network ==> !o.force
    ensures var q := DeployContract(o, p, d);
            Stuck(network, q, c, e) && (d == c && o.network == network ==> !q.alive)
  {
    if d == c && o.network == network {
      var id := e.contractId.value;
      var k :| 0 <= k < |c.calls| && c.calls[k].fn in p.once && c.calls[k].fn in Called(p.chain, c.name, id);
      RefusedStops(o, p, c.name, id, c.calls, k);
      InvokeAllGrows(o, p, c.name, id, c.calls);
      InvokeAllKeepsFile(o, p, c.name, id, c.calls);
      StuckGrows(network, p, InvokeAll(o, p, c.name, id, c.calls), c, e);
    } else {
      var q := if AlreadyDeployed(o, RecordOf(p.deployments, o.network), d) then p else Instantiate(o, p, d);
      InstantiateKeepsStuck(network, o, p, d, c, e);
      InitialiseKeepsStuck(network, o, q, d, c, e);
    }
  }

  lemma {:induction false} DeployAllKeepsStuck(network: string, o: Options, p: Process, cs: seq<Contract>, c: Contract,
                                               e: Entry)
    requires !o.dryRun && Stuck(network, p, c, e) && !c.installOnly
    requires forall d :: d in cs ==> d == c || d.name != c.name
    requires o.Selects(c) && o.network == network ==> !o.force
    ensures var q := DeployAll(o, p, cs);
            Stuck(network, q, c, e) && (c in cs && o.Selects(c) && o.network == network ==> !q.alive)
    decreases |cs|
  {
    if cs != [] && p.alive {
      var d, q := cs[0], if o.Selects(cs[0]) then DeployContract(o, p, cs[0]) else p;
      assert forall x :: x in cs <==> x == d || x in cs[1..];
      if o.Selects(d) {
        TurnKeepsStuck(network, o, p, d, c, e);
      }
      DeployAllKeepsStuck(network, o, q, cs[1..], c, e);
    }
  }

  /** A run that would go on with the half-done contract dies in its turn, and any run that does
      not force it leaves it as it is, whatever its replies. */
  lemma StuckRun(cfg: seq<Contract>, w: Outside, plan: Plan, network: string, c: Contract)
    requires DistinctNames(cfg) && c in cfg && HalfDone(w, network, c)
    requires plan.o.network == network && plan.o.Selects(c) ==> !plan.o.force || plan.o.dryRun
    ensures var w' := After(cfg, w, plan);
            && HalfDone(w', network, c)
            && RecordOf(w'.disk, network)[c.name] == RecordOf(w.disk, network)[c.name]
            && (!plan.o.dryRun && plan.o.network == network && plan.o.Selects(c) ==>
                  !Run(cfg, plan.o, w, plan.replies).alive)
  {
    var p, e := Load(plan.o, w, plan.replies), RecordOf(w.disk, network)[c.name];
    if plan.o.dryRun {
      DryRunTouchesNothing(plan.o, p, cfg);
    } else {
      assert Stuck(network, p, c, e) by {
        var call :| call in c.calls && call.fn in w.once && call.fn in Called(w.chain, c.name, e.contractId.value);
        var k :| 0 <= k < |c.calls| && c.calls[k] == call;
      }
      DeployAllKeepsStuck(network, plan.o, p, cfg, c, e);
      var q := DeployAll(plan.o, p, cfg);
      var k :| 0 <= k < |c.calls| && c.calls[k].fn in q.once &&
               c.calls[k].fn in Called(q.chain, c.name, e.contractId.value);
      assert c.calls[k] in c.calls;
    }
  }

  /** Half done is for good: no sequence of runs that do not force the contract completes it. */
  lemma {:induction false} StuckForever(cfg: seq<Contract>, w: Outside, plans: seq<Plan>, network: string, c: Contract)
    requires DistinctNames(cfg) && c in cfg && HalfDone(w, network, c)
    requires forall i :: 0 <= i < |plans| ==>
               plans[i].o.network == network && plans[i].o.Selects(c) ==> !plans[i].o.force || plans[i].o.dryRun
    ensures HalfDone(Campaign(cfg, w, plans), network, c)
    decreases |plans|
  {
    if plans == [] {
    } else {
      StuckRun(cfg, w, plans[0], network, c);
      StuckForever(cfg, After(cfg, w, plans[0]), plans[1..], network, c);
    }
  }

  lemma InstantiateWith(o: Options, p: Process, c: Contract, hash: string, id: string, rest: seq<Reply>)
    requires !o.dryRun && p.alive && !c.installOnly && p.replies == [Success(hash), Success(id)] + rest
    ensures var q := Instantiate(o, p, c);
            && q.alive && q.replies == rest && q.once == p.once && q.disk == q.deployments
            && q.chain == p.chain + [Uploaded(c.name, hash)] + [Deployed(c.name, hash, id)]
            && RecordOf(q.deployments, o.network) ==
               RecordOf(p.deployments, o.network)[c.name := Entry(hash, Some(id), false)]
  {
    assert p.replies[0] == Success(hash) && p.replies[1..] == [Success(id)] + rest;
    assert ([Success(id)] + rest)[1..] == rest;
  }

  lemma CutOffInFirstCall(o: Options, p: Process, c: Contract, id: string, output: string)
    requires !o.dryRun && p.alive && p.replies == [CutOffAfter(output)] && c.calls != []
    requires var r := RecordOf(p.deployments, o.network);
             && c.name in r && r[c.name].contractId == Some(id) && !r[c.name].initialized
             && forall n :: n in c.calls[0].needs ==> n in Ids(r)
    requires c.calls[0].fn !in Called(p.chain, c.name, id)
    ensures var q := Initialise(o, p, c);
            && !q.alive && q.deployments == p.deployments && q.disk == p.disk && q.once == p.once
            && c.calls[0].fn in Called(q.chain, c.name, id)
  {
    var record := RecordOf(p.deployments, o.network);
    ResolveExactly(o, record, c.calls[0].needs);
    var args := Resolve(o, record, c.calls[0].needs).value;
    var q := InvokeOne(o, p, c.name, id, c.calls[0]);
    assert q.chain == p.chain + [Invoked(c.name, id, c.calls[0], args)] && !q.alive;
    CalledSnoc(p.chain, Invoked(c.name, id, c.calls[0], args), c.name, id);
    assert InvokeAll(o, p, c.name, id, c.calls) == InvokeAll(o, q, c.name, id, c.calls[1..]) == q;
  }

  /** How it comes about: a fresh contract whose first call is taken only once, and a run that is
      cut off after this call. */
  lemma CutOffLeavesHalfDone(o: Options, w: Outside, c: Contract, hash: string, id: string, output: string)
    requires !o.dryRun && o.Selects(c) && !c.installOnly && c.calls != [] && c.calls[0].fn in w.once
    requires !AlreadyDeployed(o, RecordOf(w.disk, o.network), c)
    requires forall n :: n in c.calls[0].needs ==> n == c.name || n in Ids(RecordOf(w.disk, o.network))
    requires c.calls[0].fn !in Called(w.chain, c.name, id)
    ensures HalfDone(After([c], w, Plan(o, [Success(hash), Success(id), CutOffAfter(output)])), o.network, c)
  {
    var rest := [CutOffAfter(output)];
    var replies := [Success(hash), Success(id)] + rest;
    assert [Success(hash), Success(id), CutOffAfter(output)] == replies;
    var p := Load(o, w, replies);
    InstantiateWith(o, p, c, hash, id, rest);
    var q := Instantiate(o, p, c);
    CalledSnoc(w.chain, Uploaded(c.name, hash), c.name, id);
    CalledSnoc(w.chain + [Uploaded(c.name, hash)], Deployed(c.name, hash, id), c.name, id);
    CutOffInFirstCall(o, q, c, id, output);
    var t := Initialise(o, q, c);
    assert [c][1..] == [] && DeployAll(o, p, [c]) == DeployAll(o, t, []) == t;
    assert c.calls[0] in c.calls;
  }
}

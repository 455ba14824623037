/** The secret vault: one file, replaced under a lock, read without one, and a process that may stop between any two
    file operations. */
module SecretVault {
  import opened Text

  type Secrets = map<string, string>

  datatype Op = Set(key: string, secret: string) | Delete(key: string) | Get(key: string)

  /** The JSON codec behind the file: encoding never fails on a map of strings, decoding may. */
  datatype Codec = Codec(encode: Secrets -> string, decode: string -> Option<Secrets>)

  ghost predicate Inverse(c: Codec) {
    forall m: Secrets :: c.decode(c.encode(m)) == Some(m)
  }

  /** A file; `solid` once its contents are known to be on the disk itself. */
  datatype File = Absent | Data(text: string, solid: bool)

  datatype Disk = Disk(vault: File, tmp: File)

  /** What the file means: a missing vault is empty, a corrupt one is nothing at all. */
  function Meaning(c: Codec, f: File): Option<Secrets> {
    if f.Absent? then Some(map[]) else c.decode(f.text)
  }

  function Changed(op: Op, m: Secrets): Secrets {
    match op
    case Set(key, secret) => m[key := secret]
    case Delete(key) => m - {key}
    case Get(_) => m
  }

  function Lookup(m: Secrets, key: string): Option<string> {
    if key in m then Some(m[key]) else None
  }

  // ---- One file operation each -----------------------------------------------------------------------------

  function Create(d: Disk): Disk {
    d.(tmp := Data("", false))
  }

  function Append(d: Disk, text: string): Disk {
    if d.tmp.Data? then d.(tmp := Data(d.tmp.text + text, false)) else d
  }

  function SyncTmp(d: Disk): Disk {
    if d.tmp.Data? then d.(tmp := Data(d.tmp.text, true)) else d
  }

  function Rename(d: Disk): Disk {
    if d.tmp.Data? then Disk(d.tmp, Absent) else d
  }

  /** A file found after the power went: what was never synced may hold anything. */
  function Survivor(f: File, junk: string): File {
    if f.Data? && !f.solid then Data(junk, true) else f
  }

  // ---- Uninterrupted calls ---------------------------------------------------------------------------------

  datatype Answer = Written | Skipped | Secret(value: string) | Missing | Failed

  /** Where an input or output error strikes, if anywhere. */
  datatype Trouble = NoTrouble | AtRead | AtCreate | AtWrite(upTo: nat) | AtSync | AtRename

  class VaultFiles {
    const codec: Codec
    var disk: Disk

    constructor (codec: Codec, vault: File)
      ensures this.codec == codec && disk == Disk(vault, Absent)
    {
      this.codec := codec;
      disk := Disk(vault, Absent);
    }

    /** `read_map` */
    method ReadMap(trouble: Trouble) returns (m: Option<Secrets>)
      ensures disk.vault.Absent? ==> m == Some(map[])
      ensures disk.vault.Data? ==> m == if trouble.AtRead? then None else codec.decode(disk.vault.text)
    {
      if disk.vault.Absent? {
        return Some(map[]);
      }
      if trouble.AtRead? {
        return None;
      }
      m := codec.decode(disk.vault.text);
    }

    /** `write_map`: the vault is the new map or untouched, whatever goes wrong. */
    method WriteMap(m: Secrets, trouble: Trouble) returns (ok: bool)
      modifies this
      ensures ok <==> trouble.NoTrouble? || trouble.AtRead?
      ensures ok ==> disk == Disk(Data(codec.encode(m), true), Absent)
      ensures !ok ==> disk.vault == old(disk.vault)
    {
      var data := codec.encode(m);
      if trouble.AtCreate? {
        return false;
      }
      disk := Create(disk);
      if trouble.AtWrite? {
        disk := Append(disk, if trouble.upTo <= |data| then data[..trouble.upTo] else data);
        return false;
      }
      disk := Append(disk, data);
      if trouble.AtSync? {
        return false;
      }
      disk := SyncTmp(disk);
      if trouble.AtRename? {
        return false;
      }
      disk := Rename(disk);
      assert "" + data == data;
      ok := true;
    }

    /** `update`: the file holds the changed map, or it still is the very file it was. A file that does not decode is an
        error and is kept, so that nobody else's secrets are dropped. */
    method Update(op: Op, trouble: Trouble) returns (answer: Answer)
      requires Inverse(codec)
      modifies this
      ensures answer == Written || answer == Failed
      ensures old(disk.vault.Data?) && codec.decode(old(disk.vault).text).None? ==> answer == Failed
      ensures answer == Written
              <==> (old(disk.vault.Absent?) || codec.decode(old(disk.vault).text).Some?)
                   && (trouble.NoTrouble? || (trouble.AtRead? && old(disk.vault.Absent?)))
      ensures answer == Written ==> disk.vault.Data?
      ensures answer == Written && op.Set? ==>
                var m := if old(disk.vault.Absent?) then map[] else codec.decode(old(disk.vault).text).value;
                codec.decode(disk.vault.text) == Some(m[op.key := op.secret])
      ensures answer == Written && op.Delete? ==>
                var m := if old(disk.vault.Absent?) then map[] else codec.decode(old(disk.vault).text).value;
                codec.decode(disk.vault.text) == Some(m - {op.key})
      ensures answer == Failed ==> disk.vault == old(disk.vault)
    {
      var m := ReadMap(trouble);
      if m.None? {
        return Failed;
      }
      var ok := WriteMap(Changed(op, m.value), trouble);
      answer := if ok then Written else Failed;
    }

    /** `get_secret` */
    method GetSecret(key: string, trouble: Trouble) returns (answer: Answer)
      ensures disk.vault.Absent? ==> answer == Missing
      ensures disk.vault.Data? && (trouble.AtRead? || codec.decode(disk.vault.text).None?) ==> answer == Failed
      ensures disk.vault.Data? && !trouble.AtRead? && codec.decode(disk.vault.text).Some? ==>
                var m := codec.decode(disk.vault.text).value;
                answer == if key in m then Secret(m[key]) else Missing
    {
      if disk.vault.Absent? {
        return Missing;
      }
      var m := ReadMap(trouble);
      if m.None? {
        return Failed;
      }
      answer := Found(m.value, key);
    }

    /** `set_secret`: afterwards the key has the secret and every other key what it had, or nothing changed. */
    method SetSecret(key: string, secret: string, trouble: Trouble) returns (answer: Answer)
      requires Inverse(codec)
      modifies this
      ensures answer == Written || answer == Failed
      ensures old(disk.vault.Data?) && codec.decode(old(disk.vault).text).None? ==> answer == Failed
      ensures trouble.NoTrouble? && (old(disk.vault.Absent?) || codec.decode(old(disk.vault).text).Some?) ==>
                answer == Written
      ensures answer == Failed ==> disk.vault == old(disk.vault)
      ensures answer == Written ==>
                disk.vault.Data? && (old(disk.vault.Absent?) || codec.decode(old(disk.vault).text).Some?)
      ensures answer == Written ==>
                var m := if old(disk.vault.Absent?) then map[] else codec.decode(old(disk.vault).text).value;
                codec.decode(disk.vault.text) == Some(m[key := secret])
    {
      answer := Update(Set(key, secret), trouble);
    }

    /** `delete_secret`: a missing vault is left missing. */
    method DeleteSecret(key: string, trouble: Trouble) returns (answer: Answer)
      requires Inverse(codec)
      modifies this
      ensures answer == Written || answer == Failed || answer == Skipped
      ensures answer == Skipped <==> old(disk.vault.Absent?)
      ensures old(disk.vault.Data?) && codec.decode(old(disk.vault).text).None? ==> answer == Failed
      ensures trouble.NoTrouble? && old(disk.vault.Data?) && codec.decode(old(disk.vault).text).Some? ==>
                answer == Written
      ensures answer == Failed || answer == Skipped ==> disk.vault == old(disk.vault)
      ensures answer == Written ==> disk.vault.Data? && codec.decode(old(disk.vault).text).Some?
      ensures answer == Written ==>
                codec.decode(disk.vault.text) == Some(codec.decode(old(disk.vault).text).value - {key})
    {
      if disk.vault.Absent? {
        return Skipped;
      }
      answer := Update(Delete(key), trouble);
    }
  }

  function Found(m: Secrets, key: string): Answer {
    if key in m then Secret(m[key]) else Missing
  }

  // ---- Many calls at once ----------------------------------------------------------------------------------

  /** How far a call got. From `Load` to `Release` it holds the lock. */
  datatype Pc =
    | Check                            // about to see whether the file is there
    | Wait                             // about to take the lock
    | Load                             // about to read
    | Open(data: string)               // about to create the temporary file
    | Fill(data: string, count: nat)   // that much of it is written
    | Swap(data: string)               // synced, about to rename
    | Release(answer: Answer)
    | Look                             // a reader about to read
    | Done(answer: Answer)
    | Dead                             // gone with its thread or its process

  /** `began` and `point`: how many changes there were when the call began and when it took effect. */
  datatype Call = Call(op: Op, pc: Pc, began: nat, point: nat)

  /** What changed the vault: a rename, or a power cut that brought back an earlier version. */
  datatype Event = Wrote(call: nat, op: Op) | Reverted(to: nat)

  datatype State = State(
    disk: Disk,
    lock: Option<nat>,
    calls: seq<Call>,
    log: seq<Event>,
    versions: seq<File>,   // the vault after each number of events
    durable: nat)          // versions before this one cannot come back

  datatype Step =
    | Begin(op: Op)
    | CheckFile(i: nat)
    | Acquire(i: nat)
    | Read(i: nat)
    | CreateTmp(i: nat)
    | Write(i: nat, count: nat)
    | Sync(i: nat)
    | Replace(i: nat)
    | Unlock(i: nat)
    | Fail(i: nat)                                    // the next file operation reports an error
    | Panic(i: nat)                                   // its thread unwinds; the lock is freed, poisoned or not
    | Kill                                            // the process ends
    | PowerCut(to: nat, tmp: File, junk: string)      // and with it whatever was not on the disk

  function Start(vault: File): State {
    State(Disk(vault, Absent), None, [], [], [vault], 0)
  }

  predicate Inside(pc: Pc) {
    pc.Load? || pc.Open? || pc.Fill? || pc.Swap? || pc.Release?
  }

  predicate Active(s: State, i: nat) {
    i < |s.calls| && !s.calls[i].pc.Done? && !s.calls[i].pc.Dead?
  }

  predicate Enabled(s: State, step: Step) {
    match step
    case Begin(_) => true
    case CheckFile(i) => i < |s.calls| && s.calls[i].pc == Check
    case Acquire(i) => i < |s.calls| && s.calls[i].pc == Wait && s.lock.None?
    case Read(i) => i < |s.calls| && (s.calls[i].pc == Load || s.calls[i].pc == Look)
    case CreateTmp(i) => i < |s.calls| && s.calls[i].pc.Open?
    case Write(i, n) => i < |s.calls| && s.calls[i].pc.Fill? && s.calls[i].pc.count + n <= |s.calls[i].pc.data|
    case Sync(i) => i < |s.calls| && s.calls[i].pc.Fill? && s.calls[i].pc.count == |s.calls[i].pc.data|
    case Replace(i) => i < |s.calls| && s.calls[i].pc.Swap?
    case Unlock(i) => i < |s.calls| && s.calls[i].pc.Release?
    case Fail(i) => i < |s.calls| && (var pc := s.calls[i].pc;
                    (pc == Load && s.disk.vault.Data?) || pc.Open? || pc.Fill? || pc.Swap? || pc == Look)
    case Panic(i) => Active(s, i)
    case Kill => true
    case PowerCut(to, _, _) => s.durable <= to <= |s.log| && to < |s.versions|
  }

  function At(s: State, i: nat, pc: Pc): State
    requires i < |s.calls|
  {
    s.(calls := s.calls[i := s.calls[i].(pc := pc)])
  }

  /** The call takes effect now. */
  function Effective(s: State, i: nat, pc: Pc): State
    requires i < |s.calls|
  {
    s.(calls := s.calls[i := s.calls[i].(pc := pc, point := |s.log|)])
  }

  function AfterCheck(s: State, i: nat): State
    requires i < |s.calls|
  {
    if s.disk.vault.Absent? then Effective(s, i, Done(if s.calls[i].op.Get? then Missing else Skipped))
    else At(s, i, if s.calls[i].op.Get? then Look else Wait)
  }

  function AfterRead(c: Codec, s: State, i: nat): State
    requires i < |s.calls|
  {
    var m := Meaning(c, s.disk.vault);
    var call := s.calls[i];
    if call.pc == Look then
      (if m.None? then At(s, i, Done(Failed)) else Effective(s, i, Done(Found(m.value, call.op.key))))
    else if m.None? then At(s, i, Release(Failed))
    else At(s, i, Open(c.encode(Changed(call.op, m.value))))
  }

  function AllDead(calls: seq<Call>): (r: seq<Call>)
    ensures |r| == |calls|
    ensures forall i :: 0 <= i < |calls| ==> r[i] == if calls[i].pc.Done? then calls[i] else calls[i].(pc := Dead)
  {
    seq(|calls|, i requires 0 <= i < |calls| => if calls[i].pc.Done? then calls[i] else calls[i].(pc := Dead))
  }

  function Next(c: Codec, s: State, step: Step): State
    requires Enabled(s, step)
  {
    match step
    case Begin(op) => s.(calls := s.calls + [Call(op, if op.Set? then Wait else Check, |s.log|, |s.log|)])
    case CheckFile(i) => AfterCheck(s, i)
    case Acquire(i) => At(s, i, Load).(lock := Some(i))
    case Read(i) => AfterRead(c, s, i)
    case CreateTmp(i) => At(s, i, Fill(s.calls[i].pc.data, 0)).(disk := Create(s.disk))
    case Write(i, n) =>
      var pc := s.calls[i].pc;
      At(s, i, Fill(pc.data, pc.count + n)).(disk := Append(s.disk, pc.data[pc.count..pc.count + n]))
    case Sync(i) => At(s, i, Swap(s.calls[i].pc.data)).(disk := SyncTmp(s.disk))
    case Replace(i) =>
      var d := Rename(s.disk);
      var t := Effective(s, i, Release(Written));
      t.(disk := d, log := s.log + [Wrote(i, s.calls[i].op)], versions := s.versions + [d.vault])
    case Unlock(i) => At(s, i, Done(s.calls[i].pc.answer)).(lock := None)
    case Fail(i) => At(s, i, if s.calls[i].pc == Look then Done(Failed) else Release(Failed))
    case Panic(i) => At(s, i, Dead).(lock := if s.lock == Some(i) then None else s.lock)
    case Kill => s.(calls := AllDead(s.calls), lock := None)
    case PowerCut(to, tmp, junk) =>
      var vault := Survivor(s.versions[to], junk);
      State(Disk(vault, tmp), None, AllDead(s.calls), s.log + [Reverted(to)], s.versions + [vault], |s.log| + 1)
  }

  /** The states passed through by taking `steps`, any enabled ones in any order. */
  ghost predicate Follows(c: Codec, run: seq<State>, steps: seq<Step>) {
    && |run| == |steps| + 1
    && forall n :: 0 <= n < |steps| ==> Enabled(run[n], steps[n]) && run[n + 1] == Next(c, run[n], steps[n])
  }

  /** A vault as the first process finds it on the disk: missing, sound or corrupt. */
  predicate Solid(vault: File) {
    vault.Data? ==> vault.solid
  }

  ghost predicate Run(c: Codec, vault: File, run: seq<State>, steps: seq<Step>) {
    Inverse(c) && Solid(vault) && Follows(c, run, steps) && run[0] == Start(vault)
  }

  // ---- The serial reference --------------------------------------------------------------------------------

  function Effect(e: Event, maps: seq<Option<Secrets>>): Option<Secrets>
    requires maps != []
  {
    match e
    case Wrote(_, op) => (var m := maps[|maps| - 1]; if m.Some? then Some(Changed(op, m.value)) else None)
    case Reverted(to) => if to < |maps| then maps[to] else None
  }

  /** The secrets after each number of events, one event after the other. */
  function Replay(first: Option<Secrets>, log: seq<Event>): (maps: seq<Option<Secrets>>)
    ensures |maps| == |log| + 1 && maps[0] == first
  {
    if log == [] then [first]
    else
      var maps := Replay(first, log[..|log| - 1]);
      maps + [Effect(log[|log| - 1], maps)]
  }

  // ---- The invariant ---------------------------------------------------------------------------------------

  function Maps(c: Codec, s: State): (maps: seq<Option<Secrets>>)
    requires s.versions != []
    ensures |maps| == |s.log| + 1
  {
    Replay(Meaning(c, s.versions[0]), s.log)
  }

  /** Every version means what the serial replay says, and is safely on the disk. */
  ghost predicate Versions(c: Codec, s: State) {
    && |s.versions| == |s.log| + 1
    && s.durable <= |s.log|
    && s.disk.vault == s.versions[|s.log|]
    && (forall n :: 0 <= n <= |s.log| ==> Meaning(c, s.versions[n]) == Maps(c, s)[n])
    && (forall n :: 0 <= n <= |s.log| ==> s.versions[n].Data? ==> s.versions[n].solid)
  }

  ghost predicate Locked(s: State) {
    && (s.lock.Some? ==> s.lock.value < |s.calls|)
    && (forall i :: 0 <= i < |s.calls| ==> (Inside(s.calls[i].pc) <==> s.lock == Some(i)))
  }

  /** A write in the log belongs to one call only, made after it began. */
  ghost predicate Logged(c: Codec, s: State) {
    forall n :: 0 <= n < |s.log| ==>
      (match s.log[n]
       case Wrote(i, op) =>
         && i < |s.calls| && s.calls[i].op == op && s.calls[i].point == n && s.calls[i].began <= n
         && (s.calls[i].pc == Release(Written) || s.calls[i].pc == Done(Written) || s.calls[i].pc == Dead)
       case Reverted(to) => to <= n)
  }

  /** What the holder of the lock is about to write: its change to the secrets as they are now. */
  ghost predicate Prepared(c: Codec, s: State, op: Op, data: string)
    requires s.versions != []
  {
    var m := Maps(c, s)[|s.log|];
    m.Some? && data == c.encode(Changed(op, m.value))
  }

  ghost predicate CallOk(c: Codec, s: State, i: nat)
    requires s.versions != [] && i < |s.calls|
  {
    var call := s.calls[i];
    && call.began <= call.point <= |s.log|
    && match call.pc
       case Check => !call.op.Set?
       case Wait => !call.op.Get?
       case Load => !call.op.Get?
       case Look => call.op.Get?
       case Open(data) => !call.op.Get? && Prepared(c, s, call.op, data)
       case Fill(data, n) => !call.op.Get? && Prepared(c, s, call.op, data) && n <= |data|
           && s.disk.tmp == Data(data[..n], false)
       case Swap(data) => !call.op.Get? && Prepared(c, s, call.op, data) && s.disk.tmp == Data(data, true)
       case Release(answer) => !call.op.Get? && (answer == Failed || (answer == Written && InLog(s, i)))
       case Done(answer) => Truthful(c, s, i, answer)
       case Dead => true
  }

  predicate InLog(s: State, i: nat)
    requires i < |s.calls|
  {
    s.calls[i].point < |s.log| && s.log[s.calls[i].point] == Wrote(i, s.calls[i].op)
  }

  /** What an answer promises about the moment the call took effect. */
  ghost predicate Truthful(c: Codec, s: State, i: nat, answer: Answer)
    requires s.versions != [] && i < |s.calls| && s.calls[i].point <= |s.log|
  {
    var call := s.calls[i];
    var then_ := Maps(c, s)[call.point];
    match answer
    case Written => !call.op.Get? && InLog(s, i)
    case Skipped => call.op.Delete? && then_ == Some(map[])
    case Secret(v) => call.op.Get? && then_.Some? && Lookup(then_.value, call.op.key) == Some(v)
    case Missing => call.op.Get? && then_.Some? && Lookup(then_.value, call.op.key) == None
    case Failed => true
  }

  ghost predicate Inv(c: Codec, s: State) {
    && Versions(c, s) && Locked(s) && Logged(c, s)
    && forall i :: 0 <= i < |s.calls| ==> CallOk(c, s, i)
  }

  // ---- Every step keeps it ---------------------------------------------------------------------------------

  predicate Settled(pc: Pc) {
    pc == Release(Written) || pc == Done(Written) || pc == Dead
  }

  /** A step of one call that changes no version of the vault. */
  lemma Quiet(c: Codec, s: State, t: State, i: nat)
    requires Inv(c, s) && i < |s.calls| == |t.calls|
    requires t.log == s.log && t.versions == s.versions && t.durable == s.durable && t.disk.vault == s.disk.vault
    requires forall j :: 0 <= j < |s.calls| && j != i ==> t.calls[j] == s.calls[j]
    requires t.calls[i].op == s.calls[i].op && t.calls[i].began == s.calls[i].began
    requires t.calls[i].point == s.calls[i].point || (t.calls[i].point == |s.log| && !Settled(s.calls[i].pc))
    requires Settled(s.calls[i].pc) ==> Settled(t.calls[i].pc)
    requires t.disk.tmp == s.disk.tmp || s.lock == Some(i)
    requires Locked(t) && CallOk(c, t, i)
    ensures Inv(c, t)
  {
    hide Meaning, Replay;
    forall j | 0 <= j < |t.calls| ensures CallOk(c, t, j) {
      assert CallOk(c, s, j);
      if j != i && (t.calls[j].pc.Fill? || t.calls[j].pc.Swap?) {
        assert Inside(s.calls[j].pc);
      }
    }
  }

  lemma BeginStep(c: Codec, s: State, op: Op)
    requires Inv(c, s)
    ensures Inv(c, Next(c, s, Begin(op)))
  {
    hide Meaning, Replay;
    var t := Next(c, s, Begin(op));
    forall j | 0 <= j < |t.calls| ensures CallOk(c, t, j) {
      if j < |s.calls| { assert CallOk(c, s, j); }
    }
  }

  lemma CheckStep(c: Codec, s: State, i: nat)
    requires Inv(c, s) && Enabled(s, CheckFile(i))
    ensures Inv(c, Next(c, s, CheckFile(i)))
  {
    hide Replay;
    assert CallOk(c, s, i);
    var t := Next(c, s, CheckFile(i));
    assert Meaning(c, s.versions[|s.log|]) == Maps(c, s)[|s.log|];
    assert Locked(t);
    assert CallOk(c, t, i);
    Quiet(c, s, t, i);
  }

  lemma AcquireStep(c: Codec, s: State, i: nat)
    requires Inv(c, s) && Enabled(s, Acquire(i))
    ensures Inv(c, Next(c, s, Acquire(i)))
  {
    hide Meaning, Replay;
    assert CallOk(c, s, i);
    Quiet(c, s, Next(c, s, Acquire(i)), i);
  }

  lemma ReadStep(c: Codec, s: State, i: nat)
    requires Inv(c, s) && Enabled(s, Read(i))
    ensures Inv(c, Next(c, s, Read(i)))
  {
    hide Meaning, Replay;
    assert CallOk(c, s, i);
    var t := Next(c, s, Read(i));
    assert Meaning(c, s.versions[|s.log|]) == Maps(c, s)[|s.log|];
    assert Locked(t);
    assert CallOk(c, t, i);
    Quiet(c, s, t, i);
  }

  /** Creating, filling and syncing the temporary file. */
  lemma TmpStep(c: Codec, s: State, step: Step)
    requires Inv(c, s) && Enabled(s, step) && (step.CreateTmp? || step.Write? || step.Sync?)
    ensures Inv(c, Next(c, s, step))
  {
    hide Meaning, Replay;
    var i := step.i;
    assert CallOk(c, s, i);
    var t := Next(c, s, step);
    var data := s.calls[i].pc.data;
    assert Inside(s.calls[i].pc);
    if step.Write? {
      var n := s.calls[i].pc.count;
      assert data[..n] + data[n..n + step.count] == data[..n + step.count];
    } else if step.Sync? {
      assert data[..|data|] == data;
    }
    assert Locked(t);
    assert CallOk(c, t, i);
    Quiet(c, s, t, i);
  }

  lemma EndStep(c: Codec, s: State, step: Step)
    requires Inv(c, s) && Enabled(s, step) && (step.Unlock? || step.Fail? || step.Panic?)
    ensures Inv(c, Next(c, s, step))
  {
    hide Meaning, Replay;
    var i := step.i;
    assert CallOk(c, s, i);
    Quiet(c, s, Next(c, s, step), i);
  }

  /** One more event leaves what was true of the earlier ones. */
  lemma Extended(c: Codec, s: State, t: State, e: Event)
    requires Inv(c, s) && t.log == s.log + [e] && t.versions == s.versions + [t.disk.vault]
    ensures Maps(c, t) == Maps(c, s) + [Effect(e, Maps(c, s))]
  {
    hide Meaning;
    assert t.versions[0] == s.versions[0];
  }

  lemma VersionsExtended(c: Codec, s: State, t: State, e: Event)
    requires Inv(c, s) && t.log == s.log + [e] && t.versions == s.versions + [t.disk.vault] && t.durable <= |t.log|
    requires Meaning(c, t.disk.vault) == Effect(e, Maps(c, s))
    requires t.disk.vault.Data? ==> t.disk.vault.solid
    ensures Versions(c, t)
  {
    hide Meaning;
    Extended(c, s, t, e);
    hide Replay, Effect;
    forall n | 0 <= n <= |t.log| ensures Meaning(c, t.versions[n]) == Maps(c, t)[n] {
      if n <= |s.log| {
        assert Meaning(c, s.versions[n]) == Maps(c, s)[n];
      }
    }
  }

  /** What was promised of a call outside the lock stays true when the log grows. */
  lemma KeptOutside(c: Codec, s: State, t: State, e: Event, j: nat)
    requires Inv(c, s) && t.log == s.log + [e] && t.versions == s.versions + [t.disk.vault]
    requires j < |s.calls| && j < |t.calls|
    requires t.calls[j] == s.calls[j] && !Inside(s.calls[j].pc)
    ensures CallOk(c, t, j)
  {
    hide Meaning;
    Extended(c, s, t, e);
    hide Replay, Effect;
    assert CallOk(c, s, j);
    var p := s.calls[j].point;
    assert Maps(c, t)[p] == Maps(c, s)[p];
  }

  lemma ReplaceStep(c: Codec, s: State, i: nat)
    requires Inverse(c) && Inv(c, s) && Enabled(s, Replace(i))
    ensures Inv(c, Next(c, s, Replace(i)))
  {
    hide Replay;
    assert CallOk(c, s, i);
    var t := Next(c, s, Replace(i));
    var e := Wrote(i, s.calls[i].op);
    assert Inside(s.calls[i].pc);
    VersionsExtended(c, s, t, e);
    hide Meaning;
    forall j | 0 <= j < |t.calls| ensures CallOk(c, t, j) {
      if j != i { KeptOutside(c, s, t, e, j); }
    }
  }

  /** The process is gone, with or without a change of the vault. */
  lemma KillStep(c: Codec, s: State)
    requires Inv(c, s)
    ensures Inv(c, Next(c, s, Kill))
  {
    hide Meaning, Replay;
    var t := Next(c, s, Kill);
    forall j | 0 <= j < |t.calls| ensures CallOk(c, t, j) {
      assert CallOk(c, s, j);
    }
  }

  lemma PowerCutStep(c: Codec, s: State, to: nat, tmp: File, junk: string)
    requires Inv(c, s) && Enabled(s, PowerCut(to, tmp, junk))
    ensures Inv(c, Next(c, s, PowerCut(to, tmp, junk)))
  {
    hide Replay, Meaning;
    var t := Next(c, s, PowerCut(to, tmp, junk));
    var e := Reverted(to);
    assert Meaning(c, s.versions[to]) == Maps(c, s)[to];
    VersionsExtended(c, s, t, e);
    forall j | 0 <= j < |t.calls| ensures CallOk(c, t, j) {
      assert CallOk(c, s, j);
      if s.calls[j].pc.Done? { KeptOutside(c, s, t, e, j); }
    }
  }

  lemma InvStep(c: Codec, s: State, step: Step)
    requires Inverse(c) && Inv(c, s) && Enabled(s, step)
    ensures Inv(c, Next(c, s, step))
  {
    hide Inv, Next, Enabled;
    match step
    case Begin(op) => BeginStep(c, s, op);
    case CheckFile(i) => CheckStep(c, s, i);
    case Acquire(i) => AcquireStep(c, s, i);
    case Read(i) => ReadStep(c, s, i);
    case CreateTmp(_) => TmpStep(c, s, step);
    case Write(_, _) => TmpStep(c, s, step);
    case Sync(_) => TmpStep(c, s, step);
    case Replace(i) => ReplaceStep(c, s, i);
    case Unlock(_) => EndStep(c, s, step);
    case Fail(_) => EndStep(c, s, step);
    case Panic(_) => EndStep(c, s, step);
    case Kill => KillStep(c, s);
    case PowerCut(to, tmp, junk) => PowerCutStep(c, s, to, tmp, junk);
  }

  // ---- Whole runs ------------------------------------------------------------------------------------------

  /** `t` comes after `s`: nothing recorded is rewritten, answers stay, and new calls begin later. */
  ghost predicate Later(s: State, t: State) {
    && s.log <= t.log && s.versions <= t.versions && |s.calls| <= |t.calls|
    && (forall i :: 0 <= i < |s.calls| ==> s.calls[i].pc.Done? ==> t.calls[i] == s.calls[i])
    && (forall i :: |s.calls| <= i < |t.calls| ==> |s.log| <= t.calls[i].began)
    && (forall i :: 0 <= i < |s.calls| ==> t.calls[i].began == s.calls[i].began)
  }

  lemma StepLater(c: Codec, s: State, step: Step)
    requires Enabled(s, step)
    ensures Later(s, Next(c, s, step))
  {
    hide Meaning, Changed, Lookup;
  }

  lemma LaterTrans(s: State, t: State, u: State)
    requires Later(s, t) && Later(t, u)
    ensures Later(s, u)
  {
  }

  lemma LaterSame(s: State)
    ensures Later(s, s)
  {
  }

  lemma StartHolds(c: Codec, vault: File)
    requires Solid(vault)
    ensures Inv(c, Start(vault))
  {
  }

  /** The invariant holds at every point of every run. */
  lemma {:induction false} RunHolds(c: Codec, vault: File, run: seq<State>, steps: seq<Step>, n: nat)
    requires Run(c, vault, run, steps) && n < |run|
    ensures Inv(c, run[n]) && run[n].versions[0] == vault
    decreases n
  {
    hide Inv, Next, Enabled, Later, Start;
    if n == 0 {
      StartHolds(c, vault);
      StartVersion(vault);
    } else {
      RunHolds(c, vault, run, steps, n - 1);
      InvStep(c, run[n - 1], steps[n - 1]);
      StepLater(c, run[n - 1], steps[n - 1]);
      FirstVersionKept(c, run[n - 1], run[n]);
    }
  }

  lemma StartVersion(vault: File)
    ensures Start(vault).versions[0] == vault
  {
  }

  lemma FirstVersionKept(c: Codec, s: State, t: State)
    requires Inv(c, s) && Later(s, t)
    ensures t.versions[0] == s.versions[0]
  {
  }

  /** Nothing recorded is rewritten: the log and the versions only grow, and an answer given stays. */
  lemma {:induction false} RecordsGrow(c: Codec, run: seq<State>, steps: seq<Step>, m: nat, n: nat)
    requires Follows(c, run, steps) && m <= n < |run|
    ensures Later(run[m], run[n])
    decreases n
  {
    hide Next, Enabled, Later;
    if m == n {
      LaterSame(run[m]);
    } else {
      RecordsGrow(c, run, steps, m, n - 1);
      StepLater(c, run[n - 1], steps[n - 1]);
      LaterTrans(run[m], run[n - 1], run[n]);
    }
  }

  /** Whatever interleaving, failures and crashes there were, the vault file means what the logged changes make of the
      first one, one after the other. */
  lemma VaultIsReplay(c: Codec, vault: File, run: seq<State>, steps: seq<Step>, n: nat)
    requires Run(c, vault, run, steps) && n < |run|
    ensures Meaning(c, run[n].disk.vault) == Replay(Meaning(c, vault), run[n].log)[|run[n].log|]
  {
    RunHolds(c, vault, run, steps, n);
    hide Run, Meaning, Replay;
  }

  /** A call answered with success is in the log once, after it began; one answered otherwise is not in it. */
  lemma WrittenOnce(c: Codec, vault: File, run: seq<State>, steps: seq<Step>, n: nat, i: nat, k: nat)
    requires Run(c, vault, run, steps) && n < |run|
    requires i < |run[n].calls| && run[n].calls[i].pc.Done? && k < |run[n].log|
    ensures run[n].log[k] == Wrote(i, run[n].calls[i].op)
            <==> run[n].calls[i].pc == Done(Written) && k == run[n].calls[i].point
    ensures run[n].calls[i].pc == Done(Written) ==> run[n].calls[i].began <= run[n].calls[i].point < |run[n].log|
  {
    RunHolds(c, vault, run, steps, n);
    hide Run, Meaning, Replay;
    assert CallOk(c, run[n], i);
  }

  /** What a reader is told was so at one moment between its beginning and its answer. */
  lemma ReaderSeesOneMoment(c: Codec, vault: File, first: Secrets, run: seq<State>, steps: seq<Step>, n: nat, i: nat)
    requires Run(c, vault, run, steps) && n < |run|
    requires i < |run[n].calls| && run[n].calls[i].pc.Done? && run[n].calls[i].op.Get?
    ensures var call := run[n].calls[i];
            && call.began <= call.point <= |run[n].log|
            && ((if vault.Absent? then first == map[] else c.decode(vault.text) == Some(first))
                && call.pc.answer != Failed ==>
                  var then_ := Replay(Some(first), run[n].log)[call.point];
                    && then_.Some?
                    && call.pc.answer
                       == if call.op.key in then_.value then Secret(then_.value[call.op.key]) else Missing)
  {
    RunHolds(c, vault, run, steps, n);
    hide Run, Replay;
    assert CallOk(c, run[n], i);
  }

  /** A reader fails only where reading does: the file as it is when looked at decides the answer. */
  lemma LookAnswers(c: Codec, s: State, i: nat)
    requires Enabled(s, Read(i)) && s.calls[i].pc == Look
    ensures var f, key := s.disk.vault, s.calls[i].op.key;
            Next(c, s, Read(i)).calls[i].pc
            == if f.Absent? then Done(Missing)
               else if c.decode(f.text).None? then Done(Failed)
               else if key in c.decode(f.text).value then Done(Secret(c.decode(f.text).value[key]))
               else Done(Missing)
  {
  }

  /** A call begun after another was answered takes effect no earlier; if the other wrote, later. */
  lemma OrderKeepsTime(c: Codec, vault: File, run: seq<State>, steps: seq<Step>, m: nat, n: nat, a: nat, b: nat)
    requires Run(c, vault, run, steps) && m <= n < |run|
    requires a < |run[m].calls| && run[m].calls[a].pc.Done? && |run[m].calls| <= b < |run[n].calls|
    ensures |run[m].calls| <= |run[n].calls| && run[n].calls[a].point <= run[n].calls[b].point
    ensures run[n].calls[a].pc == Done(Written) ==> run[n].calls[a].point < run[n].calls[b].point
  {
    RunHolds(c, vault, run, steps, m);
    RunHolds(c, vault, run, steps, n);
    RecordsGrow(c, run, steps, m, n);
    hide Run, Meaning, Replay;
    assert CallOk(c, run[m], a) && CallOk(c, run[n], b);
  }

  // ---- No update is lost -----------------------------------------------------------------------------------

  predicate NoPowerCut(steps: seq<Step>) {
    forall i :: 0 <= i < |steps| ==> !steps[i].PowerCut?
  }

  predicate OnlyWrites(log: seq<Event>) {
    forall n :: 0 <= n < |log| ==> log[n].Wrote?
  }

  /** All changes of the log, in its order. */
  function ApplyAll(m: Secrets, log: seq<Event>): Secrets
    requires OnlyWrites(log)
  {
    if log == [] then m else Changed(log[|log| - 1].op, ApplyAll(m, log[..|log| - 1]))
  }

  /** The write at `p` is before every version that a later power cut brought back. */
  predicate Survives(log: seq<Event>, p: nat)
    requires p < |log|
  {
    log[p].Wrote? && forall q :: p < q < |log| && log[q].Reverted? ==> p < log[q].to
  }

  /** The writes among the first `n` events that survive the whole log. */
  function SurvivorsOf(log: seq<Event>, n: nat): (r: seq<Event>)
    requires n <= |log|
    ensures OnlyWrites(r)
  {
    if n == 0 then [] else SurvivorsOf(log, n - 1) + (if Survives(log, n - 1) then [log[n - 1]] else [])
  }

  /** No power cut brings back a version from before an earlier one. */
  predicate Forward(log: seq<Event>) {
    && BackOnly(log)
    && forall m, n :: 0 <= m < n < |log| && log[m].Reverted? && log[n].Reverted? ==> m < log[n].to
  }

  lemma {:induction false} SameSurvivors(a: seq<Event>, b: seq<Event>, n: nat)
    requires n <= |a| && n <= |b|
    requires forall p :: 0 <= p < n ==> a[p] == b[p] && Survives(a, p) == Survives(b, p)
    ensures SurvivorsOf(a, n) == SurvivorsOf(b, n)
  {
    hide Survives;
    if n > 0 { SameSurvivors(a, b, n - 1); }
  }

  lemma {:induction false} NoSurvivorsBehind(log: seq<Event>, m: nat, n: nat)
    requires m <= n <= |log| && forall p :: m <= p < n ==> !Survives(log, p)
    ensures SurvivorsOf(log, n) == SurvivorsOf(log, m)
    decreases n
  {
    hide Survives;
    if m < n { NoSurvivorsBehind(log, m, n - 1); }
  }

  lemma {:induction false} ReplayPrefix(first: Option<Secrets>, log: seq<Event>, n: nat)
    requires n <= |log|
    ensures Replay(first, log[..n])[n] == Replay(first, log)[n]
    decreases |log|
  {
    if n == |log| {
      assert log[..n] == log;
    } else {
      var shorter := log[..|log| - 1];
      assert shorter[..n] == log[..n];
      ReplayPrefix(first, shorter, n);
    }
  }

  lemma WriteSurvives(log: seq<Event>, n: nat)
    requires |log| == n + 1 && log[n].Wrote?
    ensures SurvivorsOf(log, n + 1) == SurvivorsOf(log[..n], n) + [log[n]]
  {
    var shorter := log[..n];
    forall p | 0 <= p < n ensures Survives(log, p) == Survives(shorter, p) {
      assert forall q :: p < q < n ==> shorter[q] == log[q];
      assert shorter[p] == log[p];
    }
    SameSurvivors(log, shorter, n);
  }

  lemma SurvivesCut(log: seq<Event>, n: nat, p: nat)
    requires |log| == n + 1 && Forward(log) && log[n].Reverted? && p < n
    ensures p < log[n].to ==> p < |log[..log[n].to]| && Survives(log, p) == Survives(log[..log[n].to], p)
    ensures p >= log[n].to ==> !Survives(log, p)
  {
    var to := log[n].to;
    if p < to {
      var kept := log[..to];
      assert forall q :: p < q < to ==> kept[q] == log[q];
      assert kept[p] == log[p];
      assert forall q :: to <= q < n ==> !log[q].Reverted?;
    }
  }

  lemma CutSurvivors(log: seq<Event>, n: nat)
    requires |log| == n + 1 && Forward(log) && log[n].Reverted?
    ensures var to := log[n].to;
            to <= n && Forward(log[..to]) && SurvivorsOf(log, n + 1) == SurvivorsOf(log[..to], to)
  {
    var to := log[n].to;
    assert to <= n;
    var kept := log[..to];
    forall p | 0 <= p < n
      ensures p < to ==> Survives(log, p) == Survives(kept, p)
      ensures p >= to ==> !Survives(log, p)
    {
      SurvivesCut(log, n, p);
    }
    assert !Survives(log, n);
    hide Survives;
    SameSurvivors(log, kept, to);
    NoSurvivorsBehind(log, to, n + 1);
  }

  lemma ForwardPrefix(log: seq<Event>, n: nat)
    requires Forward(log) && n <= |log|
    ensures Forward(log[..n])
  {
  }

  /** The serial replay is the surviving writes, in their order. */
  lemma {:induction false} ReplayOfSurvivors(first: Secrets, log: seq<Event>)
    requires Forward(log)
    ensures Replay(Some(first), log)[|log|] == Some(ApplyAll(first, SurvivorsOf(log, |log|)))
    decreases |log|
  {
    hide Survives, Forward, SurvivorsOf;
    if log == [] {
      NoneSurvive(log);
    } else {
      var n := |log| - 1;
      ForwardPrefix(log, n);
      if log[n].Wrote? {
        ReplayOfSurvivors(first, log[..n]);
        WriteSurvives(log, n);
        var kept := SurvivorsOf(log[..n], n);
        assert (kept + [log[n]])[..|kept|] == kept;
      } else {
        CutSurvivors(log, n);
        var to := log[n].to;
        ReplayPrefix(Some(first), log[..n], to);
        assert log[..n][..to] == log[..to];
        ReplayOfSurvivors(first, log[..to]);
      }
    }
  }

  lemma NoneSurvive(log: seq<Event>)
    ensures SurvivorsOf(log, 0) == []
  {
  }

  /** What may come back after a power cut lies behind every earlier one. */
  ghost predicate DurableForward(s: State) {
    Forward(s.log) && forall m :: 0 <= m < |s.log| && s.log[m].Reverted? ==> m < s.durable
  }

  lemma ForwardStep(c: Codec, s: State, step: Step)
    requires DurableForward(s) && Enabled(s, step)
    ensures DurableForward(Next(c, s, step))
  {
    hide Meaning;
  }

  lemma {:induction false} ForwardRun(c: Codec, vault: File, run: seq<State>, steps: seq<Step>, n: nat)
    requires Run(c, vault, run, steps) && n < |run|
    ensures DurableForward(run[n])
    decreases n
  {
    if n > 0 {
      hide Next, Enabled, DurableForward;
      ForwardRun(c, vault, run, steps, n - 1);
      ForwardStep(c, run[n - 1], steps[n - 1]);
    }
  }

  lemma OnlyWritesStep(c: Codec, s: State, step: Step)
    requires OnlyWrites(s.log) && Enabled(s, step) && !step.PowerCut?
    ensures OnlyWrites(Next(c, s, step).log)
  {
    hide Meaning;
  }

  lemma {:induction false} OnlyWritesLogged(c: Codec, run: seq<State>, steps: seq<Step>, n: nat)
    requires Follows(c, run, steps) && n < |run| && OnlyWrites(run[0].log) && NoPowerCut(steps)
    ensures OnlyWrites(run[n].log)
    decreases n
  {
    hide Next, Enabled, OnlyWrites;
    if n > 0 {
      OnlyWritesLogged(c, run, steps, n - 1);
      OnlyWritesStep(c, run[n - 1], steps[n - 1]);
    }
  }

  lemma {:induction false} AllSurvive(log: seq<Event>, n: nat)
    requires OnlyWrites(log) && n <= |log|
    ensures SurvivorsOf(log, n) == log[..n]
  {
    if n > 0 { AllSurvive(log, n - 1); }
  }

  /** The vault holds exactly the logged changes that no later power cut reached back over, in their order; every change
      reported as written is in the log. As long as the power stays on, however often the process dies, that is all. */
  lemma NoUpdateLost(c: Codec, vault: File, first: Secrets, run: seq<State>, steps: seq<Step>, n: nat)
    requires Run(c, vault, run, steps) && n < |run|
    ensures (if vault.Absent? then first == map[] else c.decode(vault.text) == Some(first)) ==>
              var now := ApplyAll(first, SurvivorsOf(run[n].log, |run[n].log|));
              var f := run[n].disk.vault;
              if f.Absent? then now == map[] else c.decode(f.text) == Some(now)
    ensures forall i :: 0 <= i < |run[n].calls| && run[n].calls[i].pc == Done(Written) ==> InLog(run[n], i)
    ensures NoPowerCut(steps) ==> SurvivorsOf(run[n].log, |run[n].log|) == run[n].log
  {
    if NoPowerCut(steps) {
      OnlyWritesLogged(c, run, steps, n);
      AllSurvive(run[n].log, |run[n].log|);
      assert run[n].log[..|run[n].log|] == run[n].log;
    }
    RunHolds(c, vault, run, steps, n);
    ForwardRun(c, vault, run, steps, n);
    hide Run, Replay, SurvivorsOf, Forward, ApplyAll;
    if Meaning(c, vault) == Some(first) { ReplayOfSurvivors(first, run[n].log); }
    forall i | 0 <= i < |run[n].calls| && run[n].calls[i].pc == Done(Written) ensures InLog(run[n], i) {
      assert CallOk(c, run[n], i);
    }
  }

  // ---- One step, one key, one corrupt file -----------------------------------------------------------------

  /** At each step the vault is left as it is, or renamed over with the change of one call, or (after a power cut) an
      earlier version. Other keys keep their secrets. */
  lemma StepChangesOneKey(c: Codec, s: State, step: Step)
    requires Inverse(c) && Inv(c, s) && Enabled(s, step)
    ensures var t := Next(c, s, step);
            match step
            case Replace(i) =>
              && Meaning(c, s.disk.vault).Some?
              && Meaning(c, t.disk.vault) == Some(Changed(s.calls[i].op, Meaning(c, s.disk.vault).value))
              && forall key :: key != s.calls[i].op.key ==>
                   Lookup(Meaning(c, t.disk.vault).value, key) == Lookup(Meaning(c, s.disk.vault).value, key)
            case PowerCut(to, _, _) => t.disk.vault == s.versions[to]
            case _ => t.disk.vault == s.disk.vault
  {
    hide Replay;
    if step.Replace? {
      assert CallOk(c, s, step.i);
      assert Inside(s.calls[step.i].pc);
    }
  }

  predicate BackOnly(log: seq<Event>) {
    forall n :: 0 <= n < |log| ==> log[n].Reverted? ==> log[n].to <= n
  }

  predicate Untouched(log: seq<Event>, key: string) {
    forall n :: 0 <= n < |log| ==> log[n].Wrote? ==> log[n].op.key != key
  }

  lemma {:induction false} ReplayKeeps(first: Secrets, log: seq<Event>, key: string, n: nat)
    requires BackOnly(log) && Untouched(log, key) && n <= |log|
    ensures var m := Replay(Some(first), log)[n]; m.Some? && Lookup(m.value, key) == Lookup(first, key)
    decreases |log|
  {
    if log != [] {
      var shorter := log[..|log| - 1];
      ReplayKeeps(first, shorter, key, if n < |log| then n else n - 1);
      var e := log[|log| - 1];
      if n == |log| && e.Reverted? {
        ReplayKeeps(first, shorter, key, e.to);
      }
    }
  }

  /** A key no call has written to keeps its secret through every crash and power cut. */
  lemma UntouchedKeyKept(c: Codec, vault: File, first: Secrets, run: seq<State>, steps: seq<Step>, n: nat, key: string)
    requires Run(c, vault, run, steps) && n < |run| && Untouched(run[n].log, key)
    requires if vault.Absent? then first == map[] else c.decode(vault.text) == Some(first)
    ensures var f := run[n].disk.vault;
            if f.Absent? then key !in first
            else
              && c.decode(f.text).Some?
              && (key in c.decode(f.text).value <==> key in first)
              && (key in first ==> c.decode(f.text).value[key] == first[key])
  {
    RunHolds(c, vault, run, steps, n);
    hide Run, Replay;
    ReplayKeeps(first, run[n].log, key, |run[n].log|);
  }

  ghost predicate Kept(s: State, f: File) {
    && (forall n :: 0 <= n < |s.versions| ==> s.versions[n] == f)
    && (forall n :: 0 <= n < |s.log| ==> s.log[n].Reverted?)
  }

  lemma CorruptStep(c: Codec, s: State, step: Step, f: File)
    requires Inverse(c) && Inv(c, s) && Enabled(s, step) && Kept(s, f) && Meaning(c, f).None?
    ensures Kept(Next(c, s, step), f)
  {
    hide Replay;
    StepChangesOneKey(c, s, step);
  }

  lemma {:induction false} CorruptRun(c: Codec, vault: File, run: seq<State>, steps: seq<Step>, n: nat)
    requires Run(c, vault, run, steps) && n < |run| && Meaning(c, vault).None?
    ensures Kept(run[n], vault)
    decreases n
  {
    if n > 0 {
      CorruptRun(c, vault, run, steps, n - 1);
      RunHolds(c, vault, run, steps, n - 1);
      hide Inv, Kept, Next, Enabled, Meaning;
      CorruptStep(c, run[n - 1], steps[n - 1], vault);
    }
  }

  /** A corrupt vault is never overwritten, and no call is told it was. */
  lemma CorruptVaultKept(c: Codec, vault: File, run: seq<State>, steps: seq<Step>, n: nat)
    requires Run(c, vault, run, steps) && n < |run|
    requires vault.Data? && c.decode(vault.text).None?
    ensures run[n].disk.vault == vault
    ensures forall i :: 0 <= i < |run[n].calls| && run[n].calls[i].pc.Done? ==> run[n].calls[i].pc.answer == Failed
  {
    CorruptRun(c, vault, run, steps, n);
    RunHolds(c, vault, run, steps, n);
    hide Run, Replay;
    var t := run[n];
    forall i | 0 <= i < |t.calls| && t.calls[i].pc.Done? ensures t.calls[i].pc.answer == Failed {
      assert CallOk(c, t, i);
      NoneAt(c, t, vault, t.calls[i].point);
    }
  }

  lemma NoneAt(c: Codec, s: State, f: File, n: nat)
    requires Inv(c, s) && Kept(s, f) && Meaning(c, f).None? && n <= |s.log|
    ensures Maps(c, s)[n].None?
  {
    hide Replay;
    assert Meaning(c, s.versions[n]) == Maps(c, s)[n];
  }

  // ---- A call left alone ------------------------------------------------------------------------------------

  lemma FollowsMore(c: Codec, s: State, step: Step, run: seq<State>, steps: seq<Step>)
    requires Enabled(s, step) && Follows(c, run, steps) && run[0] == Next(c, s, step)
    ensures Follows(c, [s] + run, [step] + steps)
  {
    hide Next, Enabled;
    var r, t := [s] + run, [step] + steps;
    forall n | 0 <= n < |t| ensures Enabled(r[n], t[n]) && r[n + 1] == Next(c, r[n], t[n]) {
      if n > 0 { assert r[n] == run[n - 1] && t[n] == steps[n - 1] && r[n + 1] == run[n]; }
    }
  }

  /** The steps of a call that wrote nothing yet, from the lock to its release. */
  lemma FinishAlone(c: Codec, s: State, i: nat) returns (run: seq<State>, steps: seq<Step>)
    requires i < |s.calls| && s.calls[i].pc.Open? && s.lock == Some(i)
    ensures Follows(c, run, steps) && run[0] == s
    ensures var t := run[|steps|];
            && t.disk == Disk(Data(s.calls[i].pc.data, true), Absent)
            && i < |t.calls| && t.calls[i].op == s.calls[i].op && t.calls[i].pc == Done(Written) && t.lock.None?
            && t.durable == s.durable
  {
    hide Follows, Meaning;
    var data := s.calls[i].pc.data;
    var s1 := Next(c, s, CreateTmp(i));
    var s2 := Next(c, s1, Write(i, |data|));
    assert data[0..0 + |data|] == data && "" + data == data;
    var s3 := Next(c, s2, Sync(i));
    var s4 := Next(c, s3, Replace(i));
    var s5 := Next(c, s4, Unlock(i));
    FollowsNothing(c, s5);
    FollowsMore(c, s4, Unlock(i), [s5], []);
    FollowsMore(c, s3, Replace(i), [s4] + [s5], [Unlock(i)] + []);
    run, steps := [s3] + ([s4] + [s5]), [Replace(i)] + ([Unlock(i)] + []);
    FollowsMore(c, s2, Sync(i), run, steps);
    run, steps := [s2] + run, [Sync(i)] + steps;
    FollowsMore(c, s1, Write(i, |data|), run, steps);
    run, steps := [s1] + run, [Write(i, |data|)] + steps;
    FollowsMore(c, s, CreateTmp(i), run, steps);
    run, steps := [s] + run, [CreateTmp(i)] + steps;
  }

  lemma FollowsNothing(c: Codec, s: State)
    ensures Follows(c, [s], [])
  {
  }

  /** Whatever earlier crashes left behind, a store into a sound vault that nobody disturbs goes through, and leaves
      the disk as `Update` does. */
  lemma UpdateAloneSucceeds(c: Codec, s: State, key: string, secret: string) returns (run: seq<State>, steps: seq<Step>)
    requires s.lock.None? && Meaning(c, s.disk.vault).Some?
    ensures Follows(c, run, steps) && run[0] == s
    ensures var t := run[|steps|];
            && t.disk == Disk(Data(c.encode(Changed(Set(key, secret), Meaning(c, s.disk.vault).value)), true), Absent)
            && |s.calls| < |t.calls| && t.calls[|s.calls|].op == Set(key, secret)
            && t.calls[|s.calls|].pc == Done(Written) && t.lock.None? && t.durable == s.durable
  {
    hide Meaning, Changed;
    var op, i := Set(key, secret), |s.calls|;
    var s1 := Next(c, s, Begin(op));
    var s2 := Next(c, s1, Acquire(i));
    var s3 := Next(c, s2, Read(i));
    run, steps := FinishAlone(c, s3, i);
    hide Follows;
    FollowsMore(c, s2, Read(i), run, steps);
    run, steps := [s2] + run, [Read(i)] + steps;
    FollowsMore(c, s1, Acquire(i), run, steps);
    run, steps := [s1] + run, [Acquire(i)] + steps;
    FollowsMore(c, s, Begin(op), run, steps);
    run, steps := [s] + run, [Begin(op)] + steps;
  }

  lemma FollowsOn(c: Codec, run: seq<State>, steps: seq<Step>, step: Step)
    requires Follows(c, run, steps) && Enabled(run[|steps|], step)
    ensures Follows(c, run + [Next(c, run[|steps|], step)], steps + [step])
  {
    hide Next, Enabled;
    var r, t := run + [Next(c, run[|steps|], step)], steps + [step];
    forall n | 0 <= n < |t| ensures Enabled(r[n], t[n]) && r[n + 1] == Next(c, r[n], t[n]) {
      if n < |steps| { assert r[n] == run[n] && r[n + 1] == run[n + 1] && t[n] == steps[n]; }
    }
  }

  /** A power cut can take back a change that was reported as written: the rename itself is never synced. */
  lemma PowerCutLosesWrite(c: Codec, key: string, secret: string) returns (run: seq<State>, steps: seq<Step>)
    requires Inverse(c)
    ensures Run(c, Absent, run, steps)
    ensures var t := run[|steps|];
            && |t.calls| > 0 && t.calls[0].op == Set(key, secret) && t.calls[0].pc == Done(Written)
            && t.disk.vault == Absent
  {
    hide Next, Enabled, Later, Meaning;
    var s := Start(Absent);
    assert Meaning(c, Absent).Some? by { MeaningOfNothing(c); }
    run, steps := UpdateAloneSucceeds(c, s, key, secret);
    RecordsGrow(c, run, steps, 0, |steps|);
    var t := run[|steps|];
    FirstVersion(s, t);
    var cut := PowerCut(0, Absent, "");
    CutBack(c, t, cut);
    FollowsOn(c, run, steps, cut);
    run, steps := run + [Next(c, t, cut)], steps + [cut];
  }

  lemma MeaningOfNothing(c: Codec)
    ensures Meaning(c, Absent) == Some(map[])
  {
  }

  lemma FirstVersion(s: State, t: State)
    requires Later(s, t) && s.versions != []
    ensures t.versions != [] && t.versions[0] == s.versions[0]
  {
  }

  lemma CutBack(c: Codec, t: State, cut: Step)
    requires cut == PowerCut(0, Absent, "") && t.durable == 0 && t.versions != [] && t.versions[0] == Absent
    ensures Enabled(t, cut)
    ensures var u := Next(c, t, cut);
            u.disk.vault == Absent && |u.calls| == |t.calls|
            && forall i :: 0 <= i < |t.calls| && t.calls[i].pc.Done? ==> u.calls[i] == t.calls[i]
  {
  }
}

/** The storage service as the object it is, with its two rings. */
module RemovableObject {
  import opened RemovableStorage

  /** The slot `k` places after `read`. */
  function SlotAt(read: nat, k: nat, size: nat): nat {
    if read + k < size then read + k else read + k - size
  }

  lemma NextSlot(read: nat, size: nat)
    requires read < size
    ensures (read + 1) % size == SlotAt(read, 1, size)
  {
    if read + 1 == size {
      assert size % size == 0;
    }
  }

  /** A ring of a fixed number of slots. */
  class Ring<T> {
    const slots: array<T>
    var read: nat
    var write: nat
    var count: nat
    ghost var contents: seq<T>

    ghost predicate Valid()
      reads this, slots
    {
      && 0 < slots.Length && read < slots.Length && write < slots.Length && count == |contents| <= slots.Length
      && write == SlotAt(read, if count == slots.Length then 0 else count, slots.Length)
      && forall k :: 0 <= k < count ==>
        SlotAt(read, k, slots.Length) < slots.Length && contents[k] == slots[SlotAt(read, k, slots.Length)]
    }

    constructor (size: nat, blank: T)
      requires size > 0
      ensures Valid() && contents == [] && slots.Length == size && fresh(slots)
    {
      slots := new T[size](_ => blank);
      read, write, count := 0, 0, 0;
      contents := [];
    }

    method Push(x: T) returns (ok: bool)
      requires Valid()
      modifies this, slots
      ensures Valid() && ok == (|old(contents)| < slots.Length)
      ensures contents == if ok then old(contents) + [x] else old(contents)
    {
      ok := count < slots.Length;
      if ok {
        NextSlot(write, slots.Length);
        slots[write] := x;
        write := (write + 1) % slots.Length;
        count := count + 1;
        contents := contents + [x];
      }
    }

    method Pop() returns (ok: bool, x: T)
      requires Valid()
      modifies this
      ensures Valid() && ok == (old(contents) != [])
      ensures ok ==> x == old(contents)[0] && contents == old(contents)[1..]
      ensures !ok ==> contents == old(contents)
    {
      ok, x := count != 0, slots[read];
      if ok {
        NextSlot(read, slots.Length);
        ghost var next := SlotAt(read, 1, slots.Length);
        forall k | 0 <= k < count - 1
          ensures SlotAt(next, k, slots.Length) == SlotAt(read, k + 1, slots.Length)
        {
        }
        assert contents[0] == slots[SlotAt(read, 0, slots.Length)];
        read := (read + 1) % slots.Length;
        count := count - 1;
        contents := contents[1..];
      }
    }

    method Clear()
      requires Valid()
      modifies this
      ensures Valid() && contents == []
    {
      read, write, count := 0, 0, 0;
      contents := [];
    }
  }

  /** `status_` without the length of the queue. */
  datatype Status = Status(
    state: State, cardPresent: bool, powered: bool, mounted: bool, writable: bool,
    completed: nat, failed: nat, droppedLogs: nat, removals: nat)

  const BLANK := Request(LogRecord, "", 0, 0, [])

  class StorageService {
    const config: Config
    const queue: Ring<Request>
    const completions: Ring<Completion>
    var reply: Reply
    var status: Status
    var raw: bool
    var debounced: bool
    var changedAt: nat
    var deadline: nat
    ghost var calls: seq<Call>
    ghost var accepted: seq<Request>
    ghost var settled: seq<Outcome>

    ghost function Now(): Service
      reads this, queue, completions
    {
      Service(status.state, status.cardPresent, status.powered, status.mounted, status.writable, status.completed,
              status.failed, status.droppedLogs, status.removals, queue.contents, completions.contents,
              raw, debounced, changedAt, deadline, calls, accepted, settled)
    }

    ghost predicate Valid()
      reads this, queue, queue.slots, completions, completions.slots
    {
      && Inv(Now()) && queue.Valid() && completions.Valid()
      && queue.slots.Length == QUEUE_DEPTH && completions.slots.Length == COMPLETION_DEPTH
      && (queue.slots as object) != completions.slots
    }

    constructor (c: Config, first: Reply)
      ensures Valid() && Now() == NEW && config == c && reply == first
    {
      config, reply := c, first;
      queue := new Ring<Request>(16, BLANK);
      completions := new Ring<Completion>(4, Completion(0, []));
      status := Status(Absent, false, false, false, false, 0, 0, 0, 0);
      raw, debounced, changedAt, deadline := false, false, 0, 0;
      calls, accepted, settled := [], [], [];
    }

    method SetCardDetect(present: bool, now: nat)
      requires Valid()
      modifies this`raw, this`changedAt, this`status
      ensures Now() == Detect(old(Now()), present, now) && Valid()
    {
      StepKeepsInv(config, Now(), DetectEvent(present, now));
      hide Inv, Ring.Valid;
      if present != raw {
        raw := present;
        changedAt := now;
        if present && status.state.Absent? {
          status := status.(state := Debouncing);
        }
      }
    }

    method EnqueueRequest(request: Request) returns (ok: bool)
      requires Valid()
      modifies this`status, this`accepted, queue, queue.slots
      ensures ok == Admitted(old(Now()), request)
      ensures Now() == Enqueue(old(Now()), request) && Valid()
    {
      StepKeepsInv(config, Now(), EnqueueEvent(request));
      hide Inv, WellFormed, Ring.Valid;
      ok := false;
      if !WellFormed(request) {
        return;
      }
      if status.state.Ready? {
        ok := queue.Push(request);
      }
      if ok {
        accepted := accepted + [request];
      } else if request.operation.LogRecord? {
        status := status.(droppedLogs := (status.droppedLogs + 1) % 0x1_0000_0000);
      }
    }

    method TakeCompletion() returns (ok: bool, completion: Completion)
      requires Valid()
      modifies completions
      ensures ok == (old(completions.contents) != []) && (ok ==> completion == old(completions.contents)[0])
      ensures Now() == Take(old(Now())) && Valid()
    {
      StepKeepsInv(config, Now(), TakeEvent);
      hide Inv, Ring.Valid;
      ok, completion := completions.Pop();
    }

    method FailNow(state: State, now: nat)
      modifies this`status, this`deadline
      ensures Now() == Fail(config, old(Now()), state, now)
    {
      status := status.(state := state, powered := false, mounted := false, writable := false,
                        failed := (status.failed + 1) % 0x1_0000_0000);
      deadline := now + config.cooldownUs;
    }

    method RemoveCard()
      requires queue.Valid() && completions.Valid()
      modifies this`status, this`calls, this`settled, queue, completions
      ensures Now() == Remove(old(Now())) && queue.Valid() && completions.Valid()
    {
      settled := settled + AllDiscarded(queue.contents);
      calls := [];
      queue.Clear();
      completions.Clear();
      status := status.(cardPresent := false, powered := false, mounted := false, writable := false, state := Absent,
                        removals := (status.removals + 1) % 0x1_0000_0000);
    }

    method InsertCard(now: nat)
      modifies this`status, this`deadline, this`calls, this`debounced
      ensures Now() == Insert(config, old(Now()), now, reply)
    {
      debounced := true;
      status := status.(cardPresent := true, state := Powering);
      if !reply.power {
        FailNow(IoFault, now);
        return;
      }
      calls := [PowerOn];
      status := status.(powered := true);
      deadline := now + config.settleUs;
    }

    method IdentifyNow(now: nat)
      modifies this`status, this`deadline, this`calls
      ensures Now() == IdentifyCard(config, old(Now()), now, reply)
    {
      calls := calls + [Identify];
      if reply.identify.MediaOk? {
        if reply.mountReadOnly.MediaOk? {
          calls := calls + [MountReadOnly];
          status := status.(state := MountedReadOnly, mounted := true);
        } else {
          FailNow(if reply.mountReadOnly.MediaCorrupt? then Corrupt else IoFault, now);
        }
      } else {
        FailNow(if reply.identify.MediaUnsupported? then Unsupported else IoFault, now);
      }
    }

    method ValidateNow(now: nat)
      modifies this`status, this`deadline, this`calls
      ensures Now() == ValidateCard(config, old(Now()), now, reply)
    {
      if !reply.validate.MediaOk? {
        status := status.(mounted := false);
        FailNow(Because(reply.validate), now);
        return;
      }
      if !reply.unmount {
        FailNow(IoFault, now);
        return;
      }
      status := status.(mounted := reply.mountWritable.MediaOk?);
      if !status.mounted || !reply.directories {
        FailNow(if reply.mountWritable.MediaCorrupt? then Corrupt else IoFault, now);
        return;
      }
      calls := calls + [Validate, Unmount, MountWritable, MakeDirectories];
      status := status.(state := Ready, mounted := true, writable := true);
    }

    method ServeOne()
      requires queue.Valid() && completions.Valid() && completions.slots.Length == COMPLETION_DEPTH
      requires (queue.slots as object) != completions.slots
      modifies this`status, this`calls, this`settled, queue, completions, completions.slots
      ensures Now() == Serve(old(Now()), reply) && queue.Valid() && completions.Valid()
    {
      hide Ring.Valid;
      var some, request := queue.Pop();
      if some {
        calls := calls + [Execute(request)];
        settled := settled + [Executed(request)];
        var posted := true;
        if reply.execute && !request.operation.LogRecord? {
          posted := completions.Push(Completion(request.token, reply.data));
        }
        if reply.execute && posted {
          status := status.(completed := (status.completed + 1) % 0x1_0000_0000);
        } else {
          status := status.(failed := (status.failed + 1) % 0x1_0000_0000);
        }
      }
    }

    method TickNow(now: nat)
      requires Valid()
      modifies this, queue, completions, completions.slots
      ensures Now() == Tick(config, old(Now()), now, reply) && Valid() && reply == old(reply)
    {
      StepKeepsInv(config, Now(), TickEvent(now, reply));
      assert Step(config, Now(), TickEvent(now, reply)) == Tick(config, Now(), now, reply);
      hide Inv, Step, Ring.Valid, Insert, Remove, IdentifyCard, ValidateCard, Serve;
      if raw != debounced && now - changedAt >= config.debounceUs {
        if raw {
          InsertCard(now);
        } else {
          debounced := false;
          RemoveCard();
        }
        return;
      }
      if !debounced {
        return;
      }
      match status.state
      case Powering =>
        if now >= deadline {
          status := status.(state := Identifying);
        }
      case Identifying => IdentifyNow(now);
      case MountedReadOnly => status := status.(state := Validating);
      case Validating => ValidateNow(now);
      case Ready => ServeOne();
      case _ =>
    }
  }
}

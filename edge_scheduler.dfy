/**
 * The schedule monitor of the edge device (raspberry_pi_system/src/scheduler.py).
 * On every tick it asks the API for the room's schedule of the day, takes the
 * first entry whose window holds the current time, and when that entry differs
 * from the recorded one, records it and brings the course's model in:
 * download, activate, load, clean up.
 *
 * The tick itself (thread, `schedule` library, stop event) is not modelled: the
 * API answers, the clock and the outcomes of the model steps are parameters.
 */
module EdgeScheduler {
  import opened Wrappers
  import opened Text
  import opened EdgeTime
  import opened EdgeFiles
  import MM = EdgeModelManager
  import FM = EdgeFaceModel

  /** One entry of the room's schedule as the API returns it; times are `%H:%M:%S` text. */
  datatype ScheduleEntry = ScheduleEntry(id: int, course: int, startTime: string, endTime: string)

  /** What the two API calls at the start of a tick give. */
  datatype Poll =
    | PollFailed                          // device info missing, or either request raised
    | Polled(entries: seq<ScheduleEntry>)

  /** The answer of `get_face_model(course)`. */
  datatype ModelLookup =
    | LookupFails                         // the request raised
    | NoModel                             // a falsy answer
    | Found(modelPath: string, modelVersion: int)

  /** Outcomes of the model work of one switch (oracles for network, disk and Keras). */
  datatype Services = Services(
    lookup: ModelLookup,
    transfer: MM.Transfer,
    verifies: bool,
    load: FM.LoadOutcome)

  /** The model steps, in the order `_update_schedule` runs them. */
  datatype Step = Download | Activate | Load | Cleanup

  /** `start_time <= now <= end_time`: the scheduler's own window test, inclusive, no wrap. */
  predicate InWindow(start: TimeOfDay, end: TimeOfDay, now: TimeOfDay) {
    start <= now <= end
  }

  /**
   * The scheduler's test agrees with `time_in_range` on ordinary windows and,
   * unlike it, holds nothing for a window written across midnight.
   */
  lemma InWindowIgnoresMidnightWrap(start: TimeOfDay, end: TimeOfDay, now: TimeOfDay)
    ensures InWindow(start, end, now) <==> start <= end && TimeInRange(start, end, now)
    ensures start > end ==> !InWindow(start, end, now)
  {
  }

  predicate Malformed(e: ScheduleEntry) {
    ParseTime(e.startTime).None? || ParseTime(e.endTime).None?
  }

  predicate Holds(e: ScheduleEntry, now: TimeOfDay) {
    !Malformed(e) && InWindow(ParseTime(e.startTime).value, ParseTime(e.endTime).value, now)
  }

  /** An entry the loop reads and passes over. */
  predicate Passes(e: ScheduleEntry, now: TimeOfDay) {
    !Malformed(e) && !Holds(e, now)
  }

  /** Where the loop of `_process_schedules` stops. */
  datatype ScanResult = Unparsable(at: nat) | NoMatch | Match(at: nat)

  /**
   * The loop from index `k` on: the first entry that fails to parse raises,
   * the first entry that holds `now` is the match, and otherwise no entry holds.
   */
  function ScanFrom(entries: seq<ScheduleEntry>, now: TimeOfDay, k: nat): (r: ScanResult)
    requires k <= |entries|
    ensures r.Match? ==> k <= r.at < |entries| && Holds(entries[r.at], now)
    ensures r.Unparsable? ==> k <= r.at < |entries| && Malformed(entries[r.at])
    ensures forall j :: k <= j < |entries| && (r.NoMatch? || j < r.at) ==> Passes(entries[j], now)
    decreases |entries| - k
  {
    if k == |entries| then NoMatch
    else if Malformed(entries[k]) then Unparsable(k)
    else if Holds(entries[k], now) then Match(k)
    else ScanFrom(entries, now, k + 1)
  }

  function Scan(entries: seq<ScheduleEntry>, now: TimeOfDay): ScanResult {
    ScanFrom(entries, now, 0)
  }

  /** Only the entries up to the first match are read: what follows it, even unparsable, is ignored. */
  lemma LaterEntriesIgnored(entries: seq<ScheduleEntry>, rest: seq<ScheduleEntry>, now: TimeOfDay, i: nat)
    requires i < |entries|
    requires Scan(entries, now) == Match(i)
    ensures Scan(entries[..i + 1] + rest, now) == Match(i)
  {
    var e := entries[..i + 1] + rest;
    assert forall j :: 0 <= j <= i ==> entries[j] == e[j];
  }

  /**
   * The schedule recorded after a tick, given the one recorded before it:
   * kept when the poll fails or an entry is unparsable, cleared when nothing
   * matches, otherwise the first match, unless that match carries the
   * recorded id, which keeps the recorded entry.
   */
  function NextSchedule(current: Option<ScheduleEntry>, poll: Poll, now: TimeOfDay): (r: Option<ScheduleEntry>)
    ensures poll.PollFailed? ==> r == current
    ensures poll.Polled? && poll.entries == [] ==> r == None
    ensures Switches(current, poll, now) ==> r == Some(poll.entries[Scan(poll.entries, now).at])
    ensures r.Some? && r != current ==> Switches(current, poll, now)
    ensures r.Some? ==> r == current || (poll.Polled? && r.value in poll.entries)
  {
    match poll
    case PollFailed => current
    case Polled(entries) =>
      match Scan(entries, now)
      case Unparsable(_) => current
      case NoMatch => None
      case Match(i) =>
        if current.Some? && current.value.id == entries[i].id then current else Some(entries[i])
  }

  /** Whether a tick switches schedule and so runs `_update_schedule`. */
  predicate Switches(current: Option<ScheduleEntry>, poll: Poll, now: TimeOfDay) {
    poll.Polled? && Scan(poll.entries, now).Match?
    && (current.None? || current.value.id != poll.entries[Scan(poll.entries, now).at].id)
  }

  /**
   * No retry: a tick that repeats the previous tick's answers and time does
   * not switch again, even when the model work of the previous switch failed.
   */
  lemma SwitchIsNotRepeated(current: Option<ScheduleEntry>, poll: Poll, now: TimeOfDay)
    ensures !Switches(NextSchedule(current, poll, now), poll, now)
  {
  }

  /** The network of the model of `url`, version `version`, read from its copy in service. */
  function Installed(url: string, version: int): FM.Network {
    FM.Network(MM.CurrentPath(MM.ModelFileName(version)), Artifact(url, true), true)
  }

  /**
   * The steps `_update_schedule` attempts, given the network in memory
   * before: they run in the fixed order, each only if those before it did
   * not raise, and cleanup only after the other three succeeded.
   */
  function PlannedSteps(services: Services, loaded: Option<FM.Network>): (s: seq<Step>)
    ensures s <= [Download, Activate, Load, Cleanup]
    ensures s == [] <==> !services.lookup.Found?
    ensures Cleanup in s <==>
      services.lookup.Found? && services.transfer == MM.Completed && services.verifies
      && (services.load == FM.Loads || loaded == Some(Installed(services.lookup.modelPath, services.lookup.modelVersion)))
  {
    match services.lookup
    case LookupFails => []
    case NoModel => []
    case Found(url, version) =>
      if services.transfer != MM.Completed then [Download]
      else if !services.verifies then [Download, Activate]
      else if loaded != Some(Installed(url, version)) && services.load != FM.Loads then [Download, Activate, Load]
      else [Download, Activate, Load, Cleanup]
  }

  class Scheduler {
    var currentSchedule: Option<ScheduleEntry>
    const manager: MM.ModelManager
    const faceModel: FM.FaceModel
    /** The model steps attempted by the latest switch. */
    ghost var steps: seq<Step>

    ghost predicate Valid()
      reads this, manager, faceModel
    {
      manager.Valid() && faceModel.Valid()
    }

    constructor (manager: MM.ModelManager, faceModel: FM.FaceModel)
      requires manager.Valid() && faceModel.Valid()
      ensures Valid()
      ensures this.manager == manager && this.faceModel == faceModel
      ensures currentSchedule == None && steps == []
    {
      this.manager := manager;
      this.faceModel := faceModel;
      currentSchedule := None;
      steps := [];
    }

    /**
     * `check_schedule()`: the recorded schedule becomes `NextSchedule`; model
     * work happens only on a switch, and then has the install effect. Errors
     * are logged, never raised.
     */
    method CheckSchedule(poll: Poll, now: TimeOfDay, services: Services)
      requires Valid()
      modifies this, manager, faceModel
      ensures Valid()
      ensures currentSchedule == NextSchedule(old(currentSchedule), poll, now)
      ensures !Switches(old(currentSchedule), poll, now) ==>
        steps == old(steps) && unchanged(manager) && unchanged(faceModel)
      ensures Switches(old(currentSchedule), poll, now) ==>
        steps == PlannedSteps(services, old(faceModel.model))
      ensures Switches(old(currentSchedule), poll, now) && !services.lookup.Found? ==>
        unchanged(manager) && unchanged(faceModel)
      ensures Switches(old(currentSchedule), poll, now) && services.lookup.Found? ==>
        InstallEffect(services, old(faceModel.model), old(faceModel.modelPath), old(manager.cache), old(manager.current))
    {
      match poll
      case PollFailed =>
        // APIConnectionError or a request error: logged
      case Polled(entries) =>
        if |entries| > 0 {
          var raised := ProcessSchedules(entries, now, services);
        } else {
          HandleNoSchedule();
        }
    }

    /**
     * `_process_schedules(schedules, now)`: walk the entries in order and act
     * on the first one whose window holds `now`. `raised` is the `ValueError`
     * of an unparsable time, which leaves everything as it was.
     */
    method ProcessSchedules(entries: seq<ScheduleEntry>, now: TimeOfDay, services: Services)
        returns (raised: bool)
      requires Valid()
      modifies this, manager, faceModel
      ensures Valid()
      ensures raised <==> Scan(entries, now).Unparsable?
      ensures currentSchedule == NextSchedule(old(currentSchedule), Polled(entries), now)
      ensures !Switches(old(currentSchedule), Polled(entries), now) ==>
        steps == old(steps) && unchanged(manager) && unchanged(faceModel)
      ensures Switches(old(currentSchedule), Polled(entries), now) ==>
        steps == PlannedSteps(services, old(faceModel.model))
      ensures Switches(old(currentSchedule), Polled(entries), now) && !services.lookup.Found? ==>
        unchanged(manager) && unchanged(faceModel)
      ensures Switches(old(currentSchedule), Polled(entries), now) && services.lookup.Found? ==>
        InstallEffect(services, old(faceModel.model), old(faceModel.modelPath), old(manager.cache), old(manager.current))
    {
      var i := 0;
      while i < |entries|
        invariant 0 <= i <= |entries|
        invariant Scan(entries, now) == ScanFrom(entries, now, i)
        invariant unchanged(this) && unchanged(manager) && unchanged(faceModel)
      {
        var start := ParseTime(entries[i].startTime);
        if start.None? {
          return true;
        }
        var end := ParseTime(entries[i].endTime);
        if end.None? {
          return true;
        }
        if start.value <= now <= end.value {
          if currentSchedule.None? || currentSchedule.value.id != entries[i].id {
            UpdateSchedule(entries[i], services);
          }
          return false;
        }
        i := i + 1;
      }
      HandleNoSchedule();
      return false;
    }

    /**
     * `_update_schedule(entry)`: record the entry first, then fetch the
     * course's model description and, when there is one, bring the model in.
     * A failure is logged and does not undo the recorded entry.
     */
    method UpdateSchedule(entry: ScheduleEntry, services: Services)
      requires Valid()
      modifies this, manager, faceModel
      ensures Valid()
      ensures currentSchedule == Some(entry)
      ensures steps == PlannedSteps(services, old(faceModel.model))
      ensures !services.lookup.Found? ==> unchanged(manager) && unchanged(faceModel)
      ensures services.lookup.Found? ==>
        InstallEffect(services, old(faceModel.model), old(faceModel.modelPath), old(manager.cache), old(manager.current))
    {
      currentSchedule := Some(entry);
      steps := [];
      match services.lookup
      case LookupFails =>
        // request error: logged
      case NoModel =>
        // falsy model description: nothing to load
      case Found(url, version) =>
        InstallModel(url, version, services);
    }

    /** The face model still holds what it held before. */
    ghost predicate KeepsModel(oldModel: Option<FM.Network>, oldPath: Option<string>)
      reads faceModel
    {
      faceModel.model == oldModel && faceModel.modelPath == oldPath
    }

    /**
     * The effect of loading the copy in service of the model of `url`,
     * version `version`, and cleaning up, against the state before
     * (`cache` being the cache after the download). When cleanup ran, the
     * cache was cleaned down to three `.h5` files and the network in memory
     * is the one read from the copy in service. Otherwise the load raised:
     * the cache and the recorded path are as they were, and the network in
     * memory too, unless `compile` failed after the file was read.
     */
    ghost predicate LoadEffect(url: string, version: int, load: FM.LoadOutcome,
                               oldModel: Option<FM.Network>, oldPath: Option<string>,
                               cache: map<string, Artifact>)
      reads this, manager, faceModel
    {
      var path := MM.CurrentPath(MM.ModelFileName(version));
      && (Cleanup in steps ==>
            MM.CleanedUp(cache, manager.cache, 3)
            && faceModel.model == Some(Installed(url, version)) && faceModel.modelPath == Some(path))
      && (Cleanup !in steps ==>
            manager.cache == cache && faceModel.modelPath == oldPath
            && faceModel.model == (if load == FM.CompileFails then Some(FM.Network(path, Artifact(url, true), false))
                                   else oldModel))
    }

    /**
     * The effect of bringing in the model `services.lookup` names, against the
     * state before: the transferred file lands in the cache (complete or not),
     * a verified copy replaces the current one and an unverified one is taken
     * out of service, and then the load effect follows.
     */
    ghost predicate InstallEffect(services: Services, oldModel: Option<FM.Network>, oldPath: Option<string>,
                                  oldCache: map<string, Artifact>, oldCurrent: map<string, Artifact>)
      requires services.lookup.Found?
      reads this, manager, faceModel
    {
      var url, version := services.lookup.modelPath, services.lookup.modelVersion;
      var name := MM.ModelFileName(version);
      match services.transfer
      case RequestFails =>
        manager.cache == oldCache && manager.current == oldCurrent && KeepsModel(oldModel, oldPath)
      case Interrupted =>
        manager.cache == oldCache[name := Artifact(url, false)] && manager.current == oldCurrent
        && KeepsModel(oldModel, oldPath)
      case Completed =>
        if !services.verifies then
          manager.cache == oldCache[name := Artifact(url, true)]
          && manager.current == oldCurrent - {name} && KeepsModel(oldModel, oldPath)
        else
          manager.current == oldCurrent[name := Artifact(url, true)]
          && LoadEffect(url, version, services.load, oldModel, oldPath, oldCache[name := Artifact(url, true)])
    }

    /** Download, activate, load and clean up, stopping at the first step that raises. */
    method InstallModel(url: string, version: int, services: Services)
      requires Valid()
      requires services.lookup == Found(url, version)
      requires steps == []
      modifies this`steps, manager, faceModel
      ensures Valid()
      ensures steps == PlannedSteps(services, old(faceModel.model))
      ensures InstallEffect(services, old(faceModel.model), old(faceModel.modelPath), old(manager.cache), old(manager.current))
    {
      var name := MM.ModelFileName(version);
      steps := [Download];
      var modelPath := manager.DownloadModel(url, version, services.transfer);
      if modelPath.Err? {
        return;
      }
      BasenameOfJoin(MM.CacheDir, name);
      ActivateAndLoad(url, version, services, modelPath.value);
    }

    /** The steps after a completed download of `path`, the cached copy of the model. */
    method ActivateAndLoad(url: string, version: int, services: Services, path: string)
      requires Valid()
      requires services.lookup == Found(url, version) && services.transfer == MM.Completed
      requires path == MM.CachePath(MM.ModelFileName(version))
      requires Basename(path) == MM.ModelFileName(version)
      requires MM.ModelFileName(version) in manager.cache
      requires manager.cache[MM.ModelFileName(version)] == Artifact(url, true)
      requires steps == [Download]
      modifies this`steps, manager, faceModel
      ensures Valid()
      ensures steps == PlannedSteps(services, old(faceModel.model))
      ensures var name := MM.ModelFileName(version);
        if !services.verifies then
          manager.cache == old(manager.cache) && manager.current == old(manager.current) - {name}
          && KeepsModel(old(faceModel.model), old(faceModel.modelPath))
        else
          manager.current == old(manager.current)[name := Artifact(url, true)]
          && LoadEffect(url, version, services.load, old(faceModel.model), old(faceModel.modelPath), old(manager.cache))
    {
      ghost var loaded := faceModel.model;
      var name := MM.ModelFileName(version);
      assert manager.HasSource(path);
      steps := steps + [Activate];
      var currentPath := manager.ActivateModel(path, services.verifies);
      if currentPath.Err? {
        assert steps == PlannedSteps(services, loaded);
        return;
      }
      BasenameOfJoin(MM.CurrentDir, name);
      assert manager.cache == old(manager.cache) && faceModel.model == loaded
        && faceModel.modelPath == old(faceModel.modelPath);
      LoadAndCleanUp(url, version, services, currentPath.value);
    }

    /** The steps after a successful activation of the model at `path`, its copy in service. */
    method LoadAndCleanUp(url: string, version: int, services: Services, path: string)
      requires Valid()
      requires services.lookup == Found(url, version)
      requires services.transfer == MM.Completed && services.verifies
      requires path == MM.CurrentPath(MM.ModelFileName(version))
      requires MM.ModelFileName(version) in manager.current
      requires manager.current[MM.ModelFileName(version)] == Artifact(url, true)
      requires steps == [Download, Activate]
      modifies this`steps, manager, faceModel
      ensures Valid()
      ensures steps == PlannedSteps(services, old(faceModel.model))
      ensures manager.current == old(manager.current)
      ensures LoadEffect(url, version, services.load, old(faceModel.model), old(faceModel.modelPath), old(manager.cache))
    {
      ghost var loaded := faceModel.model;
      var file := manager.current[MM.ModelFileName(version)];
      steps := steps + [Load];
      var r := faceModel.LoadModel(path, file, services.load);
      if r.Err? {
        assert loaded != Some(Installed(url, version)) && services.load != FM.Loads;
        assert steps == PlannedSteps(services, loaded);
        return;
      }
      assert loaded == Some(Installed(url, version)) || services.load == FM.Loads;
      steps := steps + [Cleanup];
      assert steps == PlannedSteps(services, loaded);
      manager.CleanupOldModels(3);
    }

    /** `_handle_no_schedule()`: forget the recorded schedule; the loaded model stays in memory. */
    method HandleNoSchedule()
      requires Valid()
      modifies this`currentSchedule
      ensures Valid()
      ensures currentSchedule == None
    {
      if currentSchedule != None {
        currentSchedule := None;
      }
    }
  }
}

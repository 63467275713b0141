/** The settings screen's view model: five settings edited in memory, saved
    to the user's defaults only while no task is processing, with a
    "pending save" flag that defers the write until the queue goes idle.
    The defaults store is a record; the debounce timer is an explicit
    "fired" event; whether tasks are active is the answer of an optional
    callback, passed to every operation. */
module SettingsViewModel {
  import opened Wrappers
  import opened Domain
  import QueueViewModel

  /** The values the screen edits. */
  datatype Settings = Settings(
    defaultConfig: ProcessingConfiguration,
    maxConcurrentTasks: int,
    autoStartProcessing: bool,
    cleanupTempFiles: bool,
    showNotifications: bool)

  /** What the defaults store holds. A missing or undecodable configuration
      is `None`; a missing integer reads as 0 and a missing flag as false. */
  datatype Stored = Stored(
    config: Option<ProcessingConfiguration>,
    maxConcurrentTasks: int,
    autoStartProcessing: bool,
    cleanupTempFiles: bool,
    showNotifications: bool)

  const EmptyStore := Stored(None, 0, false, false, false)

  /** The view model: the edited values, the deferred-save flag, whether a
      debounced save is scheduled, the store, and how many change
      notifications it has posted. */
  datatype Vm = Vm(
    current: Settings,
    pendingSave: bool,
    saveScheduled: bool,
    store: Stored,
    notifications: nat)

  /** `settingsEnabled`: no callback, or the callback says no task is
      active. */
  function SettingsEnabled(activeTasks: Option<bool>): (b: bool)
    ensures b <==> activeTasks.None? || !activeTasks.value
  {
    !(if activeTasks.Some? then activeTasks.value else false)
  }

  /** `loadDefaultConfig` and the loads in `init`/`reloadSettings`: a stored
      0 (never stored) concurrency reads as 3. */
  function Load(s: Stored): (r: Settings)
    ensures r.defaultConfig == (if s.config.Some? then s.config.value else DefaultConfig)
    ensures r.maxConcurrentTasks == QueueViewModel.StartMax(s.maxConcurrentTasks)
    ensures r.autoStartProcessing == s.autoStartProcessing && r.cleanupTempFiles == s.cleanupTempFiles
    ensures r.showNotifications == s.showNotifications
  {
    Settings(
      if s.config.Some? then s.config.value else DefaultConfig,
      if s.maxConcurrentTasks == 0 then 3 else s.maxConcurrentTasks,
      s.autoStartProcessing, s.cleanupTempFiles, s.showNotifications)
  }

  /** The store written by a save of `c`. */
  function Written(c: Settings): Stored {
    Stored(Some(c.defaultConfig), c.maxConcurrentTasks, c.autoStartProcessing, c.cleanupTempFiles, c.showNotifications)
  }

  /** The view model as `init` builds it from the store. */
  function Init(store: Stored): (vm: Vm)
    ensures vm.current == Load(store) && !vm.pendingSave && vm.store == store
  {
    Vm(Load(store), false, false, store, 0)
  }

  /** `save()`: while disabled only the pending flag is set; otherwise all
      five settings are written, the flag is cleared and a change is
      announced. */
  function Save(vm: Vm, activeTasks: Option<bool>): (r: Vm)
    ensures !SettingsEnabled(activeTasks) ==> r == vm.(pendingSave := true)
    ensures SettingsEnabled(activeTasks) ==>
      && !r.pendingSave
      && r.store.config == Some(vm.current.defaultConfig)
      && r.store.maxConcurrentTasks == vm.current.maxConcurrentTasks
      && r.store.autoStartProcessing == vm.current.autoStartProcessing
      && r.store.cleanupTempFiles == vm.current.cleanupTempFiles
      && r.store.showNotifications == vm.current.showNotifications
      && r.current == vm.current && r.notifications == vm.notifications + 1
  {
    if !SettingsEnabled(activeTasks) then vm.(pendingSave := true)
    else vm.(store := Written(vm.current), pendingSave := false, notifications := vm.notifications + 1)
  }

  /** Saved settings read back as they were, except that a concurrency of 0
      reads back as 3. */
  lemma SaveThenLoad(vm: Vm, activeTasks: Option<bool>)
    requires SettingsEnabled(activeTasks)
    ensures vm.current.maxConcurrentTasks != 0 ==> Load(Save(vm, activeTasks).store) == vm.current
    ensures vm.current.maxConcurrentTasks == 0 ==>
      Load(Save(vm, activeTasks).store) == vm.current.(maxConcurrentTasks := 3)
  {
  }

  /** `saveSoon`: while disabled only the pending flag is set; otherwise a
      debounced save is (re)scheduled. */
  function SaveSoon(vm: Vm, activeTasks: Option<bool>): (r: Vm)
    ensures r.store == vm.store && r.current == vm.current && r.notifications == vm.notifications
    ensures r.pendingSave <==> vm.pendingSave || !SettingsEnabled(activeTasks)
    ensures r.saveScheduled <==> vm.saveScheduled || SettingsEnabled(activeTasks)
  {
    if !SettingsEnabled(activeTasks) then vm.(pendingSave := true) else vm.(saveScheduled := true)
  }

  /** The debounce timer fired: the scheduled save runs, checking again
      whether settings are enabled. */
  function SaveTimerFired(vm: Vm, activeTasks: Option<bool>): (r: Vm)
    requires vm.saveScheduled
    ensures !r.saveScheduled && r.current == vm.current
    ensures r.store == (if SettingsEnabled(activeTasks) then Written(vm.current) else vm.store)
    ensures r.pendingSave <==> !SettingsEnabled(activeTasks)
    ensures r.notifications == vm.notifications + (if SettingsEnabled(activeTasks) then 1 else 0)
  {
    Save(vm.(saveScheduled := false), activeTasks)
  }

  /** A task-queue change: a deferred save runs once settings are enabled. */
  function QueueChanged(vm: Vm, activeTasks: Option<bool>): (r: Vm)
    ensures r.current == vm.current && r.saveScheduled == vm.saveScheduled
    ensures r.store == (if vm.pendingSave && SettingsEnabled(activeTasks) then Written(vm.current) else vm.store)
    ensures r.pendingSave <==> vm.pendingSave && !SettingsEnabled(activeTasks)
    ensures r.notifications == vm.notifications + (if vm.pendingSave && SettingsEnabled(activeTasks) then 1 else 0)
  {
    if vm.pendingSave && SettingsEnabled(activeTasks) then Save(vm, activeTasks) else vm
  }

  /** No edit is lost: an edit followed by its debounce timer is written at
      once if settings are enabled when the timer fires, and otherwise by
      the first queue change that finds them enabled. */
  lemma DebouncedEditIsSaved(vm: Vm, c: Settings, atEdit: Option<bool>, atTimer: Option<bool>, later: Option<bool>)
    requires SettingsEnabled(atEdit) && SettingsEnabled(later)
    ensures var fired := SaveTimerFired(Edit(vm, c, atEdit), atTimer);
      (SettingsEnabled(atTimer) ==> fired.store == Written(c) && !fired.pendingSave)
      && QueueChanged(fired, later).store == Written(c)
      && !QueueChanged(fired, later).pendingSave
  {
  }

  /** A setting changed through a binding: the autosave sink asks for a
      debounced save. */
  function Edit(vm: Vm, c: Settings, activeTasks: Option<bool>): (r: Vm)
    ensures r.current == c && r.store == vm.store
    ensures SettingsEnabled(activeTasks) ==> r.saveScheduled && r.pendingSave == vm.pendingSave
    ensures !SettingsEnabled(activeTasks) ==> r.pendingSave && r.saveScheduled == vm.saveScheduled
  {
    SaveSoon(vm.(current := c), activeTasks)
  }

  /** An update method: the new value triggers the autosave sink, then the
      method saves at once. */
  function Update(vm: Vm, c: Settings, activeTasks: Option<bool>): (r: Vm)
    ensures r.current == c
    ensures SettingsEnabled(activeTasks) ==> r.store == Written(c) && !r.pendingSave
    ensures !SettingsEnabled(activeTasks) ==> r.store == vm.store && r.pendingSave
  {
    Save(Edit(vm, c, activeTasks), activeTasks)
  }

  /** An edit made while tasks run is written, unchanged, by the first queue
      change that finds settings enabled again. */
  lemma DeferredEditIsSaved(vm: Vm, c: Settings, busy: Option<bool>, idle: Option<bool>)
    requires !SettingsEnabled(busy) && SettingsEnabled(idle)
    ensures QueueChanged(Update(vm, c, busy), idle).store == Written(c)
    ensures !QueueChanged(Update(vm, c, busy), idle).pendingSave
  {
  }

  /** `max(1, min(10, count))`. */
  function ClampConcurrency(count: int): (m: int)
    ensures 1 <= m <= 10
    ensures 1 <= count <= 10 ==> m == count
    ensures count < 1 ==> m == 1
    ensures count > 10 ==> m == 10
  {
    if count < 1 then 1 else if count > 10 then 10 else count
  }

  /** `updateMaxConcurrent`. */
  function UpdateMaxConcurrent(vm: Vm, count: int, activeTasks: Option<bool>): (r: Vm)
    ensures 1 <= r.current.maxConcurrentTasks <= 10
    ensures r.current == vm.current.(maxConcurrentTasks := ClampConcurrency(count))
  {
    Update(vm, vm.current.(maxConcurrentTasks := ClampConcurrency(count)), activeTasks)
  }

  /** Whatever concurrency a saved update stored, starting the queue uses
      exactly that value. */
  lemma StoredConcurrencyStartsQueue(vm: Vm, count: int, activeTasks: Option<bool>)
    requires SettingsEnabled(activeTasks)
    ensures var stored := UpdateMaxConcurrent(vm, count, activeTasks).store.maxConcurrentTasks;
            QueueViewModel.StartMax(stored) == ClampConcurrency(count)
  {
  }

  /** `toggleCleanup`: the flag flips and is copied into the default
      configuration. */
  function ToggleCleanup(vm: Vm, activeTasks: Option<bool>): (r: Vm)
    ensures r.current.cleanupTempFiles == !vm.current.cleanupTempFiles
    ensures r.current.defaultConfig.cleanupTempFiles == r.current.cleanupTempFiles
    ensures r.current.defaultConfig.(cleanupTempFiles := vm.current.defaultConfig.cleanupTempFiles)
            == vm.current.defaultConfig
  {
    var flipped := !vm.current.cleanupTempFiles;
    Update(vm, vm.current.(cleanupTempFiles := flipped,
                           defaultConfig := vm.current.defaultConfig.(cleanupTempFiles := flipped)),
           activeTasks)
  }

  /** `toggleAutoStart`. */
  function ToggleAutoStart(vm: Vm, activeTasks: Option<bool>): (r: Vm)
    ensures r.current == vm.current.(autoStartProcessing := !vm.current.autoStartProcessing)
  {
    Update(vm, vm.current.(autoStartProcessing := !vm.current.autoStartProcessing), activeTasks)
  }

  /** `toggleNotifications`. */
  function ToggleNotifications(vm: Vm, activeTasks: Option<bool>): (r: Vm)
    ensures r.current == vm.current.(showNotifications := !vm.current.showNotifications)
  {
    Update(vm, vm.current.(showNotifications := !vm.current.showNotifications), activeTasks)
  }

  /** Toggling twice restores the settings; for the cleanup flag, only when
      the flag and the default configuration's copy agreed to begin with. */
  lemma ToggleTwice(vm: Vm, a: Option<bool>, b: Option<bool>)
    ensures vm.current.defaultConfig.cleanupTempFiles == vm.current.cleanupTempFiles <==>
      ToggleCleanup(ToggleCleanup(vm, a), b).current == vm.current
    ensures ToggleAutoStart(ToggleAutoStart(vm, a), b).current == vm.current
    ensures ToggleNotifications(ToggleNotifications(vm, a), b).current == vm.current
  {
    var twice := ToggleCleanup(ToggleCleanup(vm, a), b).current;
    assert twice.defaultConfig.cleanupTempFiles == twice.cleanupTempFiles;
  }

  /** On a fresh install the two cleanup settings disagree: the flag reads
      as false while the default configuration cleans up. */
  lemma FreshInstallCleanupDisagrees()
    ensures !Init(EmptyStore).current.cleanupTempFiles
    ensures Init(EmptyStore).current.defaultConfig.cleanupTempFiles
  {
  }

  /** The values `resetToDefaults` restores. */
  const DefaultSettings := Settings(DefaultConfig, 3, false, true, true)

  /** `resetToDefaults`: the defaults are restored and saved. */
  function ResetToDefaults(vm: Vm, activeTasks: Option<bool>): (r: Vm)
    ensures r.current == DefaultSettings
    ensures SettingsEnabled(activeTasks) ==> Load(r.store) == DefaultSettings
  {
    Update(vm, DefaultSettings, activeTasks)
  }

  /** The single-field updates of the default configuration. */
  function UpdateMode(vm: Vm, m: ProcessingMode, activeTasks: Option<bool>): (r: Vm)
    ensures r.current == vm.current.(defaultConfig := vm.current.defaultConfig.(mode := m))
  {
    Update(vm, vm.current.(defaultConfig := vm.current.defaultConfig.(mode := m)), activeTasks)
  }

  function UpdateSourceLanguage(vm: Vm, lang: string, activeTasks: Option<bool>): (r: Vm)
    ensures r.current == vm.current.(defaultConfig := vm.current.defaultConfig.(sourceLanguage := lang))
  {
    Update(vm, vm.current.(defaultConfig := vm.current.defaultConfig.(sourceLanguage := lang)), activeTasks)
  }

  function UpdateTargetLanguage(vm: Vm, lang: string, activeTasks: Option<bool>): (r: Vm)
    ensures r.current == vm.current.(defaultConfig := vm.current.defaultConfig.(targetLanguage := lang))
  {
    Update(vm, vm.current.(defaultConfig := vm.current.defaultConfig.(targetLanguage := lang)), activeTasks)
  }

  function UpdateWhisperModel(vm: Vm, model: string, activeTasks: Option<bool>): (r: Vm)
    ensures r.current == vm.current.(defaultConfig := vm.current.defaultConfig.(whisperModel := model))
  {
    Update(vm, vm.current.(defaultConfig := vm.current.defaultConfig.(whisperModel := model)), activeTasks)
  }

  function UpdateTtsVoice(vm: Vm, voice: string, activeTasks: Option<bool>): (r: Vm)
    ensures r.current == vm.current.(defaultConfig := vm.current.defaultConfig.(ttsVoice := voice))
  {
    Update(vm, vm.current.(defaultConfig := vm.current.defaultConfig.(ttsVoice := voice)), activeTasks)
  }

  /** Settings saved by another screen: they are loaded without triggering
      an autosave. */
  function ExternalChange(vm: Vm, store: Stored): (r: Vm)
    ensures r.current == Load(store) && r.store == store
    ensures r.pendingSave == vm.pendingSave && r.saveScheduled == vm.saveScheduled
  {
    vm.(current := Load(store), store := store)
  }

  /** While tasks run, no operation writes the store. */
  lemma BusyNeverWrites(vm: Vm, c: Settings, count: int, busy: Option<bool>)
    requires !SettingsEnabled(busy)
    ensures Update(vm, c, busy).store == vm.store
    ensures UpdateMaxConcurrent(vm, count, busy).store == vm.store
    ensures ResetToDefaults(vm, busy).store == vm.store
    ensures QueueChanged(vm, busy) == vm
    ensures vm.saveScheduled ==> SaveTimerFired(vm, busy).store == vm.store
  {
  }
}

# avm_cpmac: link supervision, PHY configuration and the state behind them

This project models the hard parts of the avm_cpmac Ethernet driver in Dafny and proves what they
keep over every run. Code that updates an object in place is a class whose methods follow the C
functions branch by branch and are proved against a specification function; the theorems are about
that function, over all inputs, all runs or all reachable states.

- **Link supervision** (`LinkModel`, `LinkTime`, `LinkRuns`, `LinkBusy`, `LinkDebounce`, `LinkClock`, `LinkDriver`). The state
  machine behind every AR803x status poll: failure detection, rate-limited PHY resets, suspend and
  resume of the parent module, and the filter that hides short link losses. Every poll, register dump,
  power-up and power-down is one step. `LinkDriver.Supervisor` runs on 32-bit jiffies. Runs in true time
  that compare times as the kernel does are its exact preimage (`LinkClock.EntryWraps`), so the theorems,
  which hold on either clock, hold of the object; `Unbounded` time is the reference.
- **PHY configuration** (`PhyConfig`, `PhyModel`, `PhyRuns`, `PhyRequests`, `PhyDriver`). The ethtool configuration and
  the MDIO registers of AR803x and AR8033, which every operation has to keep in step, bit for bit. Pause
  resolution is Table 28B-3 of Annex 28B of IEEE 802.3, the registers those of section 22.2.4.
- **Gigabit throttle** (`PowerThrottle`). The power management's read-modify-write of the settings.
- **AR8033 extras** (`GpioQueue`, `SgmiiRecovery`). The LED request ring, and the counter that escalates
  from a bad reading to SGMII recovery to set-up of the PHY.
- **Modules** (`ModuleRegistry`, `EthtoolDispatch`). The registry with its recursive set-up and exit, and
  the table that sends an ethtool operation to the nearest module that implements it.
- **Traffic and management** (`MulticastQueue`, `PortTable`, `LinkEvents`). The multicast queue and its
  tasklet, the assignment of external ports, and the change-only link events with the power percentage.

## What the code does not promise

Where a promise fails, the model keeps the code's behaviour, and a lemma states exactly when the promise
holds.

- The jabber timestamp is not refreshed by a power-up that leaves the failed state. Repeated power-ups
  let it age past half the jiffies range even though polls are frequent; a poll then misses a jabber
  failure (`LinkClock.PowerUpsCanTurnTheClock`, `LinkClock.WrapIsExact`). The reset limit, the glitch filter
  and the bound on stale reports do not depend on that stamp.
- Requests to the parent alternate only while no power-up interrupts a pending failure
  (`LinkRuns.CallsAlternate`); the parent is left resumed in the failed state when a power-up there
  fails to set up the PHY (`LinkRuns.SuspendedWhileFailed`). `LinkRuns.FailedWithParentRunning` is such a run.
- Reports are those of a plain debounce filter except at polls that find a reset, a jabber failure or a
  drop to 10 Mbit/s due (`LinkDebounce.ReportsAreFiltered`). Boards get the filter in every run exactly if
  they do not reset on link failure (`LinkDebounce.BoardFilters`).
- Pause bits in a board's mode mask that the pause set-up would not compute stay advertised
  (`PhyRuns.PauseAlwaysComputed`).
- A mode mask survives the registers only if it is `Readable`: TP and Autoneg in it, no 1000BASE-T half
  duplex, gigabit only on a gigabit PHY. So `set_settings` followed by `get_settings` returns exactly such
  masks (`PhyRuns.SetThenGet`).
- A forced request with a duplex other than 0 and 1 is checked as half duplex and forces full duplex; one
  for 1000 Mbit/s does not select that speed on a PHY that is not gigabit (`PhyRequests.ForcedIsChecked`).
- On an autonegotiating fibre port CONTROL gets the speed bits of the configuration before its speed is
  forced to 1000 (`PhyConfig.SetConfigMirrors`).
- A request accepted while the PHY is powered down wakes it, though the driver goes on taking it for powered
  down (`PhyRequests.PowerBit`, `PhyRequests.RequestWakes`).
- Throttling followed by unthrottling leaves the gigabit modes the board supports, whatever was advertised.
  It restores a configuration exactly if that advertised just these modes and is readable apart from
  1000BASE-T half duplex, or there is no gigabit to restore, or the requests are refused
  (`PowerThrottle.ThrottleRoundTrip`). A user who had turned gigabit off gets it turned on
  (`PowerThrottle.ThrottleTurnsGigabitOn`). The requests are refused when the board's mask lacks TP, Autoneg or
  an advertised pause bit (`PowerThrottle.ThrottleSucceeds`, `PowerThrottle.ThrottleRefused`).
- After a reset that could not be set up the registers may say anything until something is configured
  (`PhyRuns.StaleIsExact`).
- The LED ring holds seven requests; the eighth makes it look empty and all eight are lost
  (`GpioQueue.NothingLostIff`, `GpioQueue.EightAreLost`). The ON value is cut to its low byte (`GpioQueue.EncodeMeans`).
- Set-up of a module tree reports success even if registrations fail (`ModuleRegistry.Config.Setup`), and
  exit removes older modules of the same name (`ModuleRegistry.SetupExitRestores`,
  `ModuleRegistry.OlderEntryGoes`). The second module of a name gets no mdio file (`ModuleRegistry.FileGoesToFirst`).
- The ethtool table outlives its net device. An operation is handed to the kernel by one creation only,
  so a device created again from the same tree hands over nothing of that table
  (`EthtoolDispatch.CompleteOverLife`, `EthtoolDispatch.RecreatedGetsNothing`).
- Packets sent with interrupts enabled overtake waiting ones (`MulticastQueue.InOrderIff`,
  `MulticastQueue.LaterLeavesFirst`).
- The comments of avmnet_power.c give a port without link 0 mW, but no update ever records the speed
  `no_link`: the power of a port is 0 only until its first update (`LinkEvents.SpeedStays`). The
  percentage can exceed 100 (`LinkEvents.AnyRunBounded`).

## Model

| member | source | states |
|---|---|---|
| LinkModel.DecodeStatus | avm_cpmac/phy/avmnet_ar803x.c:400-435 | A status has link only on a powered PHY, and shows transmit pause only with link and not in rx-only mode |
| LinkModel.StatusBits | avm_cpmac/phy/avmnet_ar803x.c:400-435 | Every field of the status by the bits of CONTROL and the specific-status register: power, link, speed, duplex, crossing, both pause directions |
| LinkModel.SampleBits | avm_cpmac/phy/avmnet_ar803x.c:165-281 | The latched link bit, the three interrupt bits and the jabber bit a poll looks at |
| LinkDriver.Supervisor.constructor | avm_cpmac/phy/avmnet_ar803x.c:1028-1040 | Set-up starts the run the object stands for: down, powered down, thrash window open now |
| LinkDriver.Supervisor.ReadStatus | avm_cpmac/phy/avmnet_ar803x.c:400-435 | The statements that fill in the status compute the decoding |
| LinkDriver.Supervisor.GetStatus | avm_cpmac/phy/avmnet_ar803x.c:377-454 | A poll is one step of the specification run; a powered-down PHY is skipped |
| LinkDriver.Supervisor.CheckLinkfail | avm_cpmac/phy/avmnet_ar803x.c:165-373 | New state, reported status, parent calls and resets are those of one step, in wrapped time |
| LinkDriver.Supervisor.HandleFailure | avm_cpmac/phy/avmnet_ar803x.c:196-255 | Thrash window, reset and resume of a failed PHY, power and jabber, as one stage of the step |
| LinkDriver.Supervisor.WatchLink | avm_cpmac/phy/avmnet_ar803x.c:257-281 | Link up and link lost, as one stage of the step |
| LinkDriver.Supervisor.SettleLink | avm_cpmac/phy/avmnet_ar803x.c:289-372 | Failure verdict, report, suspend and thrash count, as one stage of the step |
| LinkDriver.Supervisor.JudgeLink | avm_cpmac/phy/avmnet_ar803x.c:289-328 | Which failure a lost link amounts to, and what is shown meanwhile |
| LinkDriver.Supervisor.RegisterDump | avm_cpmac/phy/avmnet_ar803x.c:1739-1776 | A register dump that finds the link latched down moves UP to LOST and nothing else |
| LinkDriver.Supervisor.PowerDownPhy | avm_cpmac/phy/avmnet_ar803x.c:1091-1114 | Power-down as one step |
| LinkDriver.Supervisor.PowerUpPhy | avm_cpmac/phy/avmnet_ar803x.c:1118-1159 | Power-up as one step, bracketed by suspend and resume on boards that reset on link failure |
| LinkDriver.SuspendedWithFailure | avm_cpmac/phy/avmnet_ar803x.c:205-231 | Of every reachable driver object: the last parent call is a suspend iff the state is FAILED, unless a power-up of a failed PHY could not set it up |
| LinkDriver.ResetLimit | avm_cpmac/phy/avmnet_ar803x.c:196-231 | Of every reachable driver object, on 32-bit jiffies: at most 9 resets in any stretch of calls shorter than LINK_THRASH_TIME seconds, at whatever pace |
| LinkDriver.ResetLimitPerEpoch | avm_cpmac/phy/avmnet_ar803x.c:196-231 | Of every reachable driver object: at most 5 resets from one zeroing of the thrash counter to the next |
| LinkDriver.DriverFilters | avm_cpmac/phy/avmnet_ar803x.c:257-372 | The reports of a driver object polled often enough are those of the debounce filter in true time, iff no poll masks a working link |
| LinkDriver.DriverStaleness | avm_cpmac/phy/avmnet_ar803x.c:305-323 | A link it reports over a dead reading was lost less than linkf_time ago |
| LinkDriver.DriverIsExact | avm_cpmac/phy/avmnet_ar803x.c:165-373 | A driver object polled often enough shows what the machine with unbounded time shows, iff no poll consults a turned jabber stamp |
| LinkDriver.DriverRefines | avm_cpmac/phy/avmnet_ar803x.c:244-255 | It does so while no power-up comes out of a pending failure |
| LinkDriver.DriverHidesGlitches | avm_cpmac/phy/avmnet_ar803x.c:277-328 | Losses within one window of linkf_time are not reported |
| LinkDriver.DriverGivesUp | avm_cpmac/phy/avmnet_ar803x.c:300-328 | Exactly when an object polled often enough fails a link for being down |
| LinkRuns.InvariantHolds | avm_cpmac/phy/avmnet_ar803x.c:165-373 | After every run: never THRASHING, UP and LOST remember a status with link, FAILED was counted |
| LinkRuns.PollReport | avm_cpmac/phy/avmnet_ar803x.c:165-373 | What the state after a poll says about its report: UP is the raw status with link, FAILED and DOWN report no link, a reset ends in DOWN |
| LinkRuns.ResetsPerEpoch | avm_cpmac/phy/avmnet_ar803x.c:196-231 | On either clock, from one zeroing of the thrash counter to the next at most 5 resets |
| LinkRuns.ResetsBeforeZeroing | avm_cpmac/phy/avmnet_ar803x.c:196-231 | On either clock, before the first zeroing at most 4 resets |
| LinkRuns.ResetsPerWindow | avm_cpmac/phy/avmnet_ar803x.c:196-231 | On either clock, any window of LINK_THRASH_TIME seconds of any run sees at most 9 resets; 32-bit jiffies only have to measure the window |
| LinkRuns.ThrashMeaning | avm_cpmac/phy/avmnet_ar803x.c:196-231 | After every run: the count is that of the failures since the count in force began, the time stamp is when it did, FAILED is a failure pending |
| LinkRuns.ResetMeans | avm_cpmac/phy/avmnet_ar803x.c:196-231 | Exactly when a poll zeroes the counter (60 seconds) and when it resets the PHY (a failure pending, zeroed or fewer than 5) |
| LinkRuns.StampMeaning | avm_cpmac/phy/avmnet_ar803x.c:241-255 | The jabber stamp is the last executed poll that found no jabber or a failure pending |
| LinkRuns.JabberMeans | avm_cpmac/phy/avmnet_ar803x.c:241-255 | Exactly when a poll fails the link for jabber: a second after the last quiet poll, no failure pending |
| LinkRuns.RememberMeans | avm_cpmac/phy/avmnet_ar803x.c:330-372 | The saved status is that of the last poll that found the link up, failed it or reset the PHY |
| LinkBusy.LimitsAttained | avm_cpmac/phy/avmnet_ar803x.c:196-231 | A run, on either clock and every board that resets, with 5 resets from one zeroing on and 9 within one window |
| LinkRuns.SuspendedWhileFailed | avm_cpmac/phy/avmnet_ar803x.c:205-231 | At every point the parent is suspended iff a failure is pending, exactly when no power-up of a failed PHY ends in a failing set-up |
| LinkRuns.CallsAlternate | avm_cpmac/phy/avmnet_ar803x.c:205-231 | Parent calls strictly alternate, suspend first, iff no power-up interrupts a pending failure |
| LinkRuns.FailedWithParentRunning | avm_cpmac/phy/avmnet_ar803x.c:1138-1147 | A run, on every board that resets, after which the failed PHY has a running parent and the calls do not alternate |
| LinkRuns.StepCalls | avm_cpmac/phy/avmnet_ar803x.c:1138-1147 | Which parent calls each kind of step makes, by the states around it |
| LinkDebounce.MasksMeans | avm_cpmac/phy/avmnet_ar803x.c:196-297 | Each failure and each reset a poll ends in, exactly, from the state before it and what it reads; the reset with its limits of 5 and 60 seconds |
| LinkDebounce.ReportsAreFiltered | avm_cpmac/phy/avmnet_ar803x.c:257-372 | On either clock, the reports of a run are those of an independent debounce filter iff no poll finds a masking reset, jabber failure or speed drop due |
| LinkDebounce.BoardFilters | avm_cpmac/phy/avmnet_ar803x.c:181-185 | A board with fix-ups gets that filter in every run iff it does not reset on link failure |
| LinkDebounce.JabberIsReported | avm_cpmac/phy/avmnet_ar803x.c:244-252 | A run on every other board whose last report is not the filter's |
| LinkDebounce.LossesInRange | avm_cpmac/phy/avmnet_ar803x.c:303-323 | With polls at most g ticks apart a loss under watch is never too old for the 32-bit comparison |
| LinkDebounce.DownFailure | avm_cpmac/phy/avmnet_ar803x.c:300-328 | Over runs on either clock: a poll fails the link for being down iff it reads a powered PHY without link and the loss under watch began at an event at least linkf_time before, and on boards that reset 5 seconds |
| LinkDebounce.DelayOnlyBoardsFilter | avm_cpmac/phy/avmnet_ar803x.c:257-372 | Boards that only delay link-down reports are that filter, in every run on either clock |
| LinkDebounce.StalenessIsBounded | avm_cpmac/phy/avmnet_ar803x.c:305-323 | Link up over a dead reading is reported only within linkf_time of the event that began the loss |
| LinkDebounce.HeldSinceLoss | avm_cpmac/phy/avmnet_ar803x.c:305-323 | During a loss the last good status does not change |
| LinkDebounce.GlitchesAreHidden | avm_cpmac/phy/avmnet_ar803x.c:277-328 | Whatever a working link does within one window of linkf_time, no poll in it reports link down, as long as no jabber failure and no drop to 10 Mbit/s is due |
| LinkTime.ReachedExact | avm_cpmac/phy/avmnet_ar803x.c:196-199 | The signed 32-bit comparison agrees with the integer one while the difference fits in 32 signed bits |
| LinkTime.PoweredMeans | avm_cpmac/phy/avmnet_ar803x.c:386-388 | Whether polls are skipped depends on the power events alone |
| LinkTime.PlainBoardShowsRaw | avm_cpmac/phy/avmnet_ar803x.c:181-185 | A board without fix-ups reports the raw status at every poll of a powered PHY, and does nothing else |
| LinkClock.EntryWraps | avm_cpmac/phy/avmnet_ar803x.c:165-373 | The 32-bit machine shows at every event of every run what the run in true time with wrapped comparisons shows |
| LinkClock.WrapIsExact | avm_cpmac/phy/avmnet_ar803x.c:165-373 | Wrapped and unbounded runs show the same entries iff no poll consults a jabber stamp whose sign has turned |
| LinkClock.WrapRefines | avm_cpmac/phy/avmnet_ar803x.c:244-255 | With the jabber stamp near the start and no power-up out of a pending failure, the two clocks agree at every step |
| LinkClock.PowerUpsCanTurnTheClock | avm_cpmac/phy/avmnet_ar803x.c:1118-1159 | A run with frequent polls in which they disagree |
| PhyConfig.PauseResolves | avm_cpmac/common/avmnet_common.c:326-366 | For every MAC, set-up and partner: exactly which pause directions Table 28B-3 resolves |
| PhyConfig.PauseNeverExceedsSetup | avm_cpmac/common/avmnet_common.c:326-366 | No direction that was not set up; all that were where the MAC supports asymmetric pause and the partner advertises both bits; with symmetric pause only, both or none |
| PhyConfig.SetConfigMirrors | avm_cpmac/phy/avmnet_ar803x.c:1488-1635 | From any registers set_config makes them mirror the configuration bit by bit - advertisement, CONTROL with speed, duplex, isolate, restart and all other bits clear, fibre medium - and keeps all foreign fields |
| PhyRuns.RegistersMirrorConfig | avm_cpmac/phy/avmnet_ar803x.c:1488-1635 | After any operations advertisement, medium, and, while powered, autonegotiation, speed and duplex bits mirror the configuration, unless the last reset could not be set up |
| PhyRuns.StaleIsExact | avm_cpmac/phy/avmnet_ar803x.c:806-924 | They are sure to, whatever resets leave in them, iff the last reset could be configured or something was since |
| PhyRuns.AdvertiseWithinSupported | avm_cpmac/phy/avmnet_ar803x.c:1330-1389 | Non-pause advertisement stays within what is supported; supported modes and port never change |
| PhyRuns.PauseAlwaysComputed | avm_cpmac/phy/avmnet_ar803x.c:573-640 | In every run the pause bits are those computed from the pause set-up, iff the mode mask brings no others |
| PhyRuns.SettingsReadBack | avm_cpmac/phy/avmnet_ar803x.c:1162-1313 | At any point of a run get_settings returns the configured modes as far as registers carry them |
| PhyRuns.ReadableIffFixed | avm_cpmac/phy/avmnet_ar803x.c:1226-1275 | Which mode masks read back unchanged |
| PhyRuns.SetThenGet | avm_cpmac/phy/avmnet_ar803x.c:1318-1395 | What an accepted request on copper reads back as, mode by mode; it is the stored mask iff that is readable |
| PhyRuns.SetThenGetFibre | avm_cpmac/phy/avmnet_ar803x.c:1199-1225 | On fibre it reads back as the 100/1000 closure of the requested duplexes |
| PhyRequests.DefaultModes | avm_cpmac/phy/avmnet_ar803x.c:573-590 | The modes of a board without a mode mask |
| PhyRequests.GivenModes | avm_cpmac/phy/avmnet_ar803x.c:573-590 | Those of a board with one; gigabit modes go where 1000-full meets a PHY that is not gigabit |
| PhyRequests.SetupChoices | avm_cpmac/phy/avmnet_ar803x.c:600-651 | Advertisement, autonegotiation, speed, duplex and port that set-up chooses, by the bits of the mask |
| PhyRequests.AcceptedAutoneg | avm_cpmac/phy/avmnet_ar803x.c:1330-1375 | A request for autonegotiation is accepted iff it asks for no mode that is not supported |
| PhyRequests.AcceptedForced | avm_cpmac/phy/avmnet_ar803x.c:1330-1375 | A forced request is accepted iff the speed is 10, 100 or 1000 and its one mode is supported |
| PhyRequests.SetThenGetForced | avm_cpmac/phy/avmnet_ar803x.c:1376-1395 | An accepted forced request: stored as asked, nothing else changed, CONTROL selects it with autonegotiation off, and it reads back so |
| PhyRequests.ForcedIsChecked | avm_cpmac/phy/avmnet_ar803x.c:1340-1389 | CONTROL forces the mode that was checked iff the duplex is 0 or 1 and 1000 Mbit/s meets a gigabit PHY |
| PhyRequests.SetupMeans | avm_cpmac/phy/avmnet_ar803x.c:1440-1460 | Which pause directions of a request are stored, by the MAC, and those of the board's tables |
| PhyRequests.PauseAsWished | avm_cpmac/phy/avmnet_ar803x.c:1424-1484 | At every point of a run, for every MAC and partner, exactly the pause directions that Table 28B-3 resolves, from those last asked for by a request or by the board |
| PhyRequests.FullPartner | avm_cpmac/phy/avmnet_ar803x.c:1424-1484 | On an asymmetric MAC with a partner that advertises both bits: exactly those asked for |
| PhyRequests.ForcedPauseEffect | avm_cpmac/phy/avmnet_ar803x.c:1430-1437 | A request without autonegotiation succeeds iff it asks for nothing |
| PhyRequests.PauseRequestEffect | avm_cpmac/phy/avmnet_ar803x.c:1440-1484 | A request with it succeeds iff it changes the configuration, of which only the set-up and the pause bits change |
| PhyRequests.PowerDownWrites | avm_cpmac/phy/avmnet_ar803x.c:1091-1114 | Power-down writes 0x0C00 to CONTROL and nothing else |
| PhyRequests.PowerBit | avm_cpmac/phy/avmnet_ar803x.c:1091-1159 | Over runs: the power-down bit is set exactly while the last write of CONTROL was a power-down |
| PhyRequests.RequestWakes | avm_cpmac/phy/avmnet_ar803x.c:1488-1635 | An accepted request on a powered-down PHY clears the bit though the driver's flag stays |
| PhyDriver.Device.constructor | avm_cpmac/phy/avmnet_ar803x.c:565-717 | Set-up starts a run; default and board-given modes, pause and speed, configured and powered down |
| PhyDriver.Device.WriteConfig | avm_cpmac/phy/avmnet_ar803x.c:1488-1635 | The read-modify-write sequence stores the encoded registers |
| PhyDriver.Device.SetSettingsOf | avm_cpmac/phy/avmnet_ar803x.c:1318-1395 | One operation of the run; a refused command changes neither configuration nor registers |
| PhyDriver.Device.SetPauseParam | avm_cpmac/phy/avmnet_ar803x.c:1424-1484 | One operation of the run; a refused request changes nothing |
| PhyDriver.Device.GetSettings | avm_cpmac/phy/avmnet_ar803x.c:1162-1313 | A poll, then the settings decoded from the registers, equal to the configured ones |
| PhyDriver.Device.PowerDownPhy | avm_cpmac/phy/avmnet_ar803x.c:1091-1114 | One operation of the run |
| PhyDriver.Device.PowerUpPhy | avm_cpmac/phy/avmnet_ar803x.c:1118-1159 | One operation of the run, whatever the reset leaves in the registers; it succeeds iff all of set-up does |
| PhyDriver.Device.StatusPoll | avm_cpmac/phy/avmnet_ar803x.c:458-487 | A poll changes registers only through a reset |
| PhyDriver.Device.CollectCopper | avm_cpmac/phy/avmnet_ar803x.c:1227-1272 | The bit-by-bit collection computes the decoding of the copper registers |
| PowerThrottle.PowerManager.PowerConfig | avm_cpmac/management/avmnet_power.c:99-139 | The throttle as one read-modify-write of one port's settings; a bad port changes nothing |
| PowerThrottle.DeviceReady | avm_cpmac/management/avmnet_power.c:99-139 | Every powered, autonegotiating gigabit copper device whose last reset was set up is one the throttle theorems speak of |
| PowerThrottle.ReadyAfterPowerUp | avm_cpmac/phy/avmnet_ar803x.c:1118-1159 | The first power-up leads there |
| PowerThrottle.ThrottleSucceeds | avm_cpmac/management/avmnet_power.c:99-139 | Exactly when throttling a ready PHY is not refused |
| PowerThrottle.ThrottleRefused | avm_cpmac/management/avmnet_power.c:130-137 | A board on which it is refused after power-up |
| PowerThrottle.ThrottleDropsGigabit | avm_cpmac/management/avmnet_power.c:119-139 | The registers lose exactly the gigabit advertisement; the configuration does iff it was readable otherwise |
| PowerThrottle.ThrottleTwice | avm_cpmac/management/avmnet_power.c:119-139 | Throttling again changes nothing, registers included, and succeeds as the first time |
| PowerThrottle.ThrottleRoundTrip | avm_cpmac/management/avmnet_power.c:119-139 | For every ready PHY: what throttle on and off leaves in configuration and advertisement registers, and exactly when that is what was there before |
| PowerThrottle.ThrottleTurnsGigabitOn | avm_cpmac/management/avmnet_power.c:119-139 | A run after which it turns on the gigabit advertisement a user had turned off |
| GpioQueue.LedQueue.GpioSet | avm_cpmac/phy/avmnet_ar8033.c:184-201 | A request is queued last; the eighth outstanding one empties the ring; unknown LEDs are refused |
| GpioQueue.LedQueue.Enqueue | avm_cpmac/phy/avmnet_ar8033.c:184-201 | The array and its indices implement the ring of seven |
| GpioQueue.LedQueue.GpioWork | avm_cpmac/phy/avmnet_ar8033.c:113-180 | A drain applies all pending requests in order and empties the ring |
| GpioQueue.EncodeMeans | avm_cpmac/phy/avmnet_ar8033.c:184-201 | A queued half-word selects its LED alone and is on iff the low byte of the value is not zero |
| GpioQueue.SwitchMeans | avm_cpmac/phy/avmnet_ar8033.c:156-172 | One request on the register, bit by bit: two-bit fields of its LED at 3 for on and 2 for off, all others kept |
| GpioQueue.LastWriterWins | avm_cpmac/phy/avmnet_ar8033.c:144-177 | Applied requests leave each LED as last asked for and all other register fields alone |
| GpioQueue.NothingLostIff | avm_cpmac/phy/avmnet_ar8033.c:113-201 | The requests applied and pending are all requests so far, in order, iff none ever found seven pending |
| GpioQueue.EightAreLost | avm_cpmac/phy/avmnet_ar8033.c:184-201 | Seven requests in a row wait; with the eighth none is applied, none pending |
| GpioQueue.RegisterIsApplied | avm_cpmac/phy/avmnet_ar8033.c:113-180 | The register always is the outcome of the requests applied so far |
| GpioQueue.DrainedRegister | avm_cpmac/phy/avmnet_ar8033.c:113-201 | After a drain of a run without overflow each LED is as last asked for in the whole run |
| SgmiiRecovery.CounterMeaning | avm_cpmac/phy/avmnet_ar8033.c:277-345 | The counter is the streak of bad polls modulo ten, or ten exactly after a recovery in vain; the kernel stops iff a poll after one cannot set up the PHY |
| SgmiiRecovery.ReadingBits | avm_cpmac/phy/avmnet_ar8033.c:283-337 | Which bits of a reading mean powersave, in sync and good |
| SgmiiRecovery.OneRecoveryInTen | avm_cpmac/phy/avmnet_ar8033.c:334-345 | Of any ten bad polls in a row exactly one recovers the link, where the streak before them says |
| SgmiiRecovery.BrokenIsNoticed | avm_cpmac/phy/avmnet_ar8033.c:310-322 | After a recovery in vain the next executed poll sets up the PHY or stops, however many were skipped |
| SgmiiRecovery.SetupSgmii | avm_cpmac/phy/avmnet_ar8033.c:613-677 | Recovery succeeds iff one of ten readings is in sync, stops at the first, and takes at most 11 tries |
| SgmiiRecovery.FirstInSync | avm_cpmac/phy/avmnet_ar8033.c:613-677 | By the first reading in sync: it works iff that is one of the first ten |
| SgmiiRecovery.FirstAnswer | avm_cpmac/phy/avmnet_ar8033.c:697-710 | By the first good identifier: the PHY is accepted iff that is one of the first ten readings and the next is not zero |
| SgmiiRecovery.AwaitPhy | avm_cpmac/phy/avmnet_ar8033.c:697-710 | A hanging PHY is given up iff none of ten readings is good or the next one is zero |
| SgmiiRecovery.SetUpPhy | avm_cpmac/phy/avmnet_ar8033.c:681-753 | When set-up of the PHY reports success |
| SgmiiRecovery.Sgmii.GetStatus | avm_cpmac/phy/avmnet_ar8033.c:278-345 | Each poll recovers, stops or counts as the history of readings says, and keeps LED_OVERRIDE |
| ModuleRegistry.SetupLists | avm_cpmac/common/avmnet_common.c:121-145 | Distinct new names are appended in post-order with consecutive identifiers |
| ModuleRegistry.ChildrenFirst | avm_cpmac/common/avmnet_common.c:121-145 | A tree is walked with every module after its children and the root last |
| ModuleRegistry.SetupAppends | avm_cpmac/common/avmnet_config.c:232-285 | Whatever registration fails, old entries stay and at most one entry per module of a name is added |
| ModuleRegistry.SetupExitRestores | avm_cpmac/common/avmnet_common.c:121-173 | Set-up then exit restores the registry iff no module has the name of one registered before, whatever fails |
| ModuleRegistry.OlderEntryGoes | avm_cpmac/common/avmnet_common.c:121-173 | A registry that set-up and exit of one module do not restore |
| ModuleRegistry.FileGoesToFirst | avm_cpmac/common/avmnet_config.c:232-285 | The second module of a name gets an entry without file; its mdio file is that of the older entry |
| ModuleRegistry.TreeRoundTrip | avm_cpmac/common/avmnet_common.c:121-173 | The restoration theorem for a module tree |
| ModuleRegistry.ExitRemovesFirst | avm_cpmac/common/avmnet_config.c:292-330 | Exit takes away the oldest entry of every name in the tree |
| ModuleRegistry.Config.FindByName | avm_cpmac/common/avmnet_config.c:642-659 | The first entry of that name |
| ModuleRegistry.Config.AddProcEntry | avm_cpmac/common/avmnet_config.c:337-394 | Adds one file to the first entry of the name, or refuses with the code of the reason |
| ModuleRegistry.Config.RegisterModule | avm_cpmac/common/avmnet_config.c:232-285 | Appends an entry with the next identifier and its mdio file, or fails with the code of the reason |
| ModuleRegistry.Config.UnregisterModule | avm_cpmac/common/avmnet_config.c:292-330 | Removes the first entry of the name, or reports that there is none |
| ModuleRegistry.Config.Setup | avm_cpmac/common/avmnet_common.c:121-145 | The recursive walk registers exactly the post-order of the tree, and always reports success |
| ModuleRegistry.Config.Exit | avm_cpmac/common/avmnet_common.c:150-173 | The recursive walk unregisters exactly the post-order of the tree |
| EthtoolDispatch.NearestIsFirst | avm_cpmac/common/avmnet_config.c:1509-1656 | The owner of an operation implements it and no module nearer to the PHY does |
| EthtoolDispatch.HandedOverOnce | avm_cpmac/common/avmnet_config.c:1509-1656 | Over the life of a device an operation is handed to the kernel by the first creation whose tree implements it and by no other |
| EthtoolDispatch.CompleteOverLife | avm_cpmac/common/avmnet_config.c:1289-1304 | All creations of a device hand over everything their trees implement iff no two of the trees share an operation |
| EthtoolDispatch.RecreatedGetsNothing | avm_cpmac/common/avmnet_config.c:1289-1304 | A device created again from a tree it had before is handed over with no operation of the table |
| EthtoolDispatch.NetDevice.Create | avm_cpmac/common/avmnet_config.c:1054-1131 | After the climb each slot holds the nearest module of the first tree that implements the operation, and the kernel has the operations this tree is the first to implement |
| EthtoolDispatch.NetDevice.AddModule | avm_cpmac/common/avmnet_config.c:1511-1656 | One module takes exactly the free slots of the operations it implements |
| EthtoolDispatch.NetDevice.Destroy | avm_cpmac/common/avmnet_config.c:1289-1304 | The table stays |
| EthtoolDispatch.NetDevice.Dispatch | avm_cpmac/common/avmnet_config.c:1665-1716 | An operation the kernel was handed reaches the module of the present tree nearest to the PHY; not registered iff no tree ever implemented it; the not-implemented branch is dead |
| MulticastQueue.InvariantHolds | avm_cpmac/common/avmnet_multicast.c:35-66 | In every legal run a waiting packet has the tasklet scheduled, and registered, used and initialised agree |
| MulticastQueue.FlagsMean | avm_cpmac/common/avmnet_multicast.c:137-264 | Initialised, registered and used, told from the calls so far |
| MulticastQueue.NoExitNoLoss | avm_cpmac/common/avmnet_multicast.c:238-264 | Without an exit nothing is freed and what left was sent, in that order |
| MulticastQueue.AllStamped | avm_cpmac/common/avmnet_multicast.c:52-66 | Every packet taken in bears the device's address and identity |
| MulticastQueue.QueueIsFifo | avm_cpmac/common/avmnet_multicast.c:35-66 | The packets that left the queue and those in it are the queued arrivals, in order and stamped |
| MulticastQueue.Conservation | avm_cpmac/common/avmnet_multicast.c:238-264 | Every packet is exactly one of sent, freed and waiting |
| MulticastQueue.InOrderIff | avm_cpmac/common/avmnet_multicast.c:52-66 | Packets leave in order of arrival iff none was sent at once while others waited |
| MulticastQueue.LaterLeavesFirst | avm_cpmac/common/avmnet_multicast.c:52-66 | A run in which the later of two packets leaves first |
| MulticastQueue.BoundedWait | avm_cpmac/common/avmnet_multicast.c:35-47 | Each tasklet run takes 32 more of the packets present, whatever else happens |
| MulticastQueue.DrainTime | avm_cpmac/common/avmnet_multicast.c:35-47 | n waiting packets take exactly ceil(n / 32) runs |
| MulticastQueue.Forwarder.TransmitSingle | avm_cpmac/common/avmnet_multicast.c:52-66 | One event of the run |
| MulticastQueue.Forwarder.HandleTasklet | avm_cpmac/common/avmnet_multicast.c:35-47 | One event of the run |
| MulticastQueue.Forwarder.SendSome | avm_cpmac/common/avmnet_multicast.c:39-43 | The loop sends the first 32 packets, or all, in order |
| MulticastQueue.Forwarder.EnableDriver | avm_cpmac/common/avmnet_multicast.c:137-163 | One event of the run |
| MulticastQueue.Forwarder.DisableDriver | avm_cpmac/common/avmnet_multicast.c:168-188 | One event of the run |
| MulticastQueue.Forwarder.InitDriver | avm_cpmac/common/avmnet_multicast.c:193-233 | One event of the run |
| MulticastQueue.Forwarder.ExitDriver | avm_cpmac/common/avmnet_multicast.c:238-264 | One event of the run |
| PortTable.NoGap | avm_cpmac/management/avmnet_mgmt.c:66-74 | As many separate ports as there are numbers below k are all of them iff they are below k |
| PortTable.FastestIsMaximum | avm_cpmac/management/avmnet_mgmt.c:81-90 | The maximum speed is that of a supported mode, and no supported mode is faster |
| PortTable.PortsComplete | avm_cpmac/management/avmnet_mgmt.c:66-80 | The second loop finds every slot below the count filled and answering iff the ports are numbered without gap and all settings work |
| PortTable.Management.InitPorts | avm_cpmac/management/avmnet_mgmt.c:40-100 | Succeeds iff the external ports are separate, fit, have no gap and tell their settings; then devices and slots correspond one to one |
| PortTable.Management.EnterDevices | avm_cpmac/management/avmnet_mgmt.c:44-65 | Enters all devices, or fails iff a port is too big or taken |
| PortTable.Management.ReadSpeeds | avm_cpmac/management/avmnet_mgmt.c:66-95 | Every slot below the count learns the fastest mode of its device |
| LinkEvents.RecordIsLatest | avm_cpmac/management/avmnet_links.c:217-274 | After any updates a record is its port's last one with a legal speed |
| LinkEvents.EventsAreNews | avm_cpmac/management/avmnet_links.c:241-273 | Every event differs from the records before it, and from the event before it unless a change between was withheld |
| LinkEvents.ListenerKnows | avm_cpmac/management/avmnet_links.c:241-273 | Who is sent every event always knows the records as they are; no event repeats the one before it |
| LinkEvents.NoPortIgnored | avm_cpmac/management/avmnet_links.c:217-230 | Updates of a device without port change nothing, however long the table |
| LinkEvents.SpeedStays | avm_cpmac/management/avmnet_links.c:231-239 | The power of a port is 0 iff it had no update yet |
| LinkEvents.PercentageBounded | avm_cpmac/management/avmnet_power.c:63-92 | Updates within the maximum speeds keep the percentage at most 100 |
| LinkEvents.AnyRunBounded | avm_cpmac/management/avmnet_power.c:63-92 | For every board: no run of updates reports more than 100 percent iff its ports at full speed stay below 101 percent of the divisor |
| LinkEvents.SmallBoardBounded | avm_cpmac/management/avmnet_power.c:63-92 | Up to 82 ports: iff all are gigabit ports, or the single port has no speed known |
| LinkEvents.ReportsBounded | avm_cpmac/management/avmnet_power.c:63-92 | Every report of a run of updates within the maximum speeds is at most 100 percent |
| LinkEvents.ReportNames | avm_cpmac/management/avmnet_power.c:63-92 | A report names exactly the ports in use whose last legal update had link |
| LinkEvents.SinglePort | avm_cpmac/management/avmnet_power.c:63-92 | The percentages of a single gigabit port: 0, 9, 18, 100 |
| LinkEvents.ObjectReportsBounded | avm_cpmac/management/avmnet_power.c:63-92 | The same of every reachable object |
| LinkEvents.Links.constructor | avm_cpmac/management/avmnet_links.c:153-173 | The initial records carry the maximum speeds of the ports |
| LinkEvents.Links.PortUpdate | avm_cpmac/management/avmnet_links.c:217-274 | Records, events and power reports follow the run of updates |
| LinkEvents.Links.UpdatePercentage | avm_cpmac/management/avmnet_power.c:63-92 | The loop reports the linked ports and the percentage of the records |

## Left out

- Concurrency inside one locked section: every call is one atomic step, locks are always obtained, and
  the interrupt handlers only queue work. What the tasklet does while `tasklet_kill` waits for it comes
  before exit as an event of its own.
- The extra poll queued HZ/2 after a failure, and the counting of interrupt enables and disables.
- `thrash_count` is a natural number; the C counter is 32 bits wide and zeroed every minute.
- Parents without suspend or resume callbacks: the calls are counted as requests.
- `setup_phy` beyond resets and set_config: delays, vendor debug-port and MMD writes, errata. Whether it
  succeeds is a parameter, and a reset leaves arbitrary registers.
- Children of a PHY: power-up returns the result of the last one, where there is one.
- Debug register writes through procfs, which can put anything into the registers.
- Port and PHY address in get_settings, the link speed found by its poll (a parameter of
  `PhyDriver.Device.GetSettings`), and the transmit-pause decoding of the AR8033, which reads the receive bit.
- `link_work_handler` of the AR8033, which pulses resets from an interrupt; readings of the SGMII registers
  are parameters.
- Module trees with handlers other than the generic ones. A tree module without a handler makes the
  generic functions call through NULL after handling the child themselves.
- Interrupted semaphores in the registry other than during registration, and the procfs files themselves.
- ethtool statistics, which do not depend on modules, and the error code each wrapper returns.
- `mcfw_multicast_forward_alloc_id`, LED events, and re-sending of link events on request of a listener.
- AVM_EVENT_ETH_MAXPORTS comes from a header that is not part of this model; it is a parameter, at most 255.
- PortTable.Management.InitPorts: starts from the zeroed table of a driver just loaded, as the only caller
  does, with at most 255 devices; the C loop counter is 8 bits wide and would not end with more.
- Board tables, netdev registration, statistics, timers, OAM and the other PHY and switch drivers.
- The ethtool mode bits are those of the Linux uapi header, which is not part of this model.

/** The second-stage bootloader's choice between the firmware loader and the
    program (bootloader_components/main/bootloader_start.c). */
module BootSelector {
  import opened Words

  /** BOOTLDSD_RESET_HINT_REGVAL: the 15-bit hint twice, top bit set. */
  const HINT: u32 := 0x91F2_11F2

  datatype Reset = CoreSoftware | CpuSoftware | DeepSleep | PowerOn | Brownout | Watchdog | OtherHardware

  datatype Partition = Unusable | FirmwareLoader | Program

  /** The resets that the hardware makes, among them every return of power. */
  predicate IsHard(rr: Reset) {
    rr == PowerOn || rr == Brownout || rr == Watchdog || rr == OtherHardware
  }

  type HardReset = rr: Reset | IsHard(rr) witness PowerOn

  predicate ResetIsSoftware(rr: Reset) {
    rr == CoreSoftware || rr == CpuSoftware
  }

  /** Who starts, by reset reason and hint register, on a sound partition table: the
      loader after every hardware reset, after a restart by software exactly if it is
      asked for, and never after deep sleep. */
  function Starts(rr: Reset, hint: u32): (p: Partition)
    ensures IsHard(rr) ==> p == FirmwareLoader
    ensures rr == CoreSoftware || rr == CpuSoftware ==>
              p == if hint == 0x91F2_11F2 then FirmwareLoader else Program
    ensures rr == DeepSleep ==> p == Program
  {
    if rr == DeepSleep then Program
    else if hint == HINT || !ResetIsSoftware(rr) then FirmwareLoader
    else Program
  }

  /** The RTC register the hint travels in; it survives a restart. */
  class RtcRegister {
    var value: u32

    constructor ()
      ensures value == 0
    {
      value := 0;
    }

    /** selected_boot_partition; the default partition of a sound table is the program. */
    method SelectedBootPartition(tableIsSound: bool, rr: Reset, loaderSize: nat) returns (p: Partition)
      modifies this
      ensures p == if !tableIsSound then Unusable else if loaderSize == 0 then Program else Starts(rr, old(value))
      ensures tableIsSound && loaderSize > 0 && IsHard(rr) ==> p == FirmwareLoader
      ensures value == if tableIsSound && loaderSize > 0 && rr != DeepSleep && old(value) == HINT then 0
                       else old(value)
    {
      if !tableIsSound {
        return Unusable;
      }
      if rr == DeepSleep {
        return Program;
      }
      if loaderSize == 0 {
        return Program;
      }
      var hint := value;
      if hint == HINT {
        value := 0;
        return FirmwareLoader;
      }
      if !ResetIsSoftware(rr) {
        return FirmwareLoader;
      }
      p := Program;
    }
  }
}

/**
 * `Art32` of Emulator/src/system.rs: the machine that owns the CPU, both RAM
 * blocks and the reservation. `step` and the timer bus `IoBus` are not part of
 * this model; the MMU that `step` builds from the three memory fields is class
 * `Art32System.Mmu`.
 */
module Art32Machine {
  import Mem = Memory
  import opened Art32System
  import opened CpuModel
  import opened CpuCore

  class Art32 {
    const cpu: Cpu
    const kernelRam: Mem.Memory
    const systemRam: Mem.Memory
    const reservation: Reservation

    ghost predicate Valid()
      reads this, cpu, cpu.Repr, kernelRam, systemRam
    {
      cpu.Valid()
      && kernelRam.words.Length == KERNEL_RAM_WORDS && systemRam.words.Length == SYSTEM_RAM_WORDS
      && kernelRam.words != systemRam.words
      && kernelRam.words !in cpu.Repr && systemRam.words !in cpu.Repr && reservation !in cpu.Repr
    }

    /** `Art32::new`: a fresh CPU, both RAM blocks zeroed, no reservation. */
    constructor ()
      ensures Valid() && fresh(cpu.Repr)
      ensures cpu.View() == NewCpu()
      ensures forall i :: 0 <= i < KERNEL_RAM_WORDS ==> kernelRam.words[i] == 0
      ensures forall i :: 0 <= i < SYSTEM_RAM_WORDS ==> systemRam.words[i] == 0
      ensures reservation.addr.None?
    {
      kernelRam := new Mem.Memory(KERNEL_RAM_SIZE);
      systemRam := new Mem.Memory(SYSTEM_RAM_SIZE);
      reservation := new Reservation();
      cpu := new Cpu();
    }

    /** `Art32::reset`: resets the CPU and drops the reservation; neither RAM block is touched. */
    method Reset()
      requires Valid()
      modifies cpu, reservation
      ensures Valid() && cpu.Repr == old(cpu.Repr)
      ensures cpu.View() == ResetCpu(old(cpu.View()))
      ensures reservation.addr.None?
      ensures kernelRam.words[..] == old(kernelRam.words[..]) && systemRam.words[..] == old(systemRam.words[..])
    {
      cpu.Reset();
      reservation.Reset();
    }
  }
}

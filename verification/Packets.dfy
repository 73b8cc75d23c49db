/** The values that travel between the processor, the controller and the ranks. */
module Packets {
  datatype Option<+T> = None | Some(value: T)

  /** Data buffers are opaque values; Tracer is what a bank returns for a cell that was
      never written. */
  type Word = int
  const Tracer: Word := 0xdeadbeef

  datatype PacketKind = Read | ReadP | Write | WriteP | Activate | Precharge | Refresh | Data
  {
    predicate IsRead() { Read? || ReadP? }
    predicate IsWrite() { Write? || WriteP? }
    predicate IsColumn() { IsRead() || IsWrite() }
    predicate IsAuto() { ReadP? || WriteP? }
  }

  /** A bus packet. The field id stands for the packet's identity: it is the position of
      its transaction in the order in which the controller accepted transactions. */
  datatype BusPacket = BusPacket(kind: PacketKind, addr: nat, col: nat, row: nat,
                                 rank: nat, bank: nat, data: Word, id: nat)

  datatype Transaction = Transaction(isWrite: bool, addr: nat, data: Word, id: nat)

  /** A packet waiting for a countdown to reach zero. */
  datatype Timed = Timed(packet: BusPacket, left: nat)

  /** Decrement of a 32-bit unsigned counter. */
  function Dec(x: nat): (r: nat)
    ensures x > 0 ==> r == x - 1
  {
    if x == 0 then 0xFFFF_FFFF else x - 1
  }

  datatype BankMode = Idle | RowActive | Precharging | Refreshing | PowerDown

  datatype BankState = BankState(mode: BankMode, openRow: nat, nextRead: int, nextWrite: int,
                                 nextActivate: int, nextPrecharge: int, nextPowerUp: int,
                                 lastCommand: PacketKind, countdown: nat)

  const FreshBank := BankState(Idle, 0, 0, 0, 0, 0, 0, Read, 0)

  predicate Rect<T>(t: seq<seq<T>>, rows: nat, cols: nat) {
    |t| == rows && forall i :: 0 <= i < rows ==> |t[i]| == cols
  }
}

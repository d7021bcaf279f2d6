/** The four field tables of src/proto/protocol.pb.c. Gaps and sizes follow the structs of
    src/proto/protocol.pb.h with two-byte alignment of byte arrays and four-byte alignment of
    integers. */
module ProtocolTables {
  import opened Pb

  function Text(tag: nat, cap: nat): Field { Field(tag, KString(cap), 0, cap) }
  function Blob(tag: nat, gap: nat, cap: nat): Field { Field(tag, KBytes(cap), gap, cap + 2) }

  const SWAP_TABLE: Table := [
    Text(1, 151), Text(2, 20), Text(3, 151), Text(4, 20), Text(5, 151), Text(6, 20), Text(7, 10), Text(8, 10),
    Blob(9, 1, 16), Blob(10, 0, 16), Text(11, 11), Blob(12, 1, 32), Blob(13, 0, 34)]

  const UDECIMAL_TABLE: Table := [Blob(1, 0, 16), Field(2, KUint32, 2, 4)]

  const SELL_TABLE: Table := [
    Text(1, 50), Text(2, 10), Blob(3, 0, 16), Text(4, 151), Text(5, 10),
    Field(6, KMessage(UDECIMAL_TABLE), 1, 24), Blob(7, 0, 32), Text(8, 20)]

  const FUND_TABLE: Table := [
    Text(1, 50), Text(2, 50), Text(3, 10), Blob(4, 0, 16), Text(5, 151), Blob(6, 1, 32), Text(7, 20)]

  lemma DecimalTable()
    ensures WellFormed(UDECIMAL_TABLE) && Size(UDECIMAL_TABLE) == 24
  {
    assert forall i :: 0 <= i < |UDECIMAL_TABLE| ==> UDECIMAL_TABLE[i].tag == i + 1;
  }

  lemma SwapTable()
    ensures WellFormed(SWAP_TABLE)
  {
    assert forall i :: 0 <= i < |SWAP_TABLE| ==> SWAP_TABLE[i].tag == i + 1 && !SWAP_TABLE[i].kind.KMessage?;
  }

  lemma SellTable()
    ensures WellFormed(SELL_TABLE)
  {
    DecimalTable();
    hide WellFormed, Size;
    assert forall i :: 0 <= i < |SELL_TABLE| ==> SELL_TABLE[i].tag == i + 1;
    assert forall i :: 0 <= i < |SELL_TABLE| && i != 5 ==> !SELL_TABLE[i].kind.KMessage?;
    assert SELL_TABLE[5] == Field(6, KMessage(UDECIMAL_TABLE), 1, 24);
    OneLevelTable(SELL_TABLE);
  }

  lemma FundTable()
    ensures WellFormed(FUND_TABLE)
  {
    assert forall i :: 0 <= i < |FUND_TABLE| ==> FUND_TABLE[i].tag == i + 1 && !FUND_TABLE[i].kind.KMessage?;
  }

  lemma OneLevelTable(t: Table)
    requires |t| > 0 && forall i :: 0 <= i < |t| ==> t[i].tag == i + 1
    requires |t| < 100 && forall i :: 0 <= i < |t| ==> Holds(t[i].kind, t[i].size) && t[i].size < 0x10000
    requires forall i :: 0 <= i < |t| && t[i].kind.KMessage? ==> WellFormed(t[i].kind.sub)
    ensures WellFormed(t)
  {
  }

  /** The tables meet everything the decoder's laws ask of a table. */
  lemma TablesAreWellFormed()
    ensures WellFormed(SWAP_TABLE) && WellFormed(UDECIMAL_TABLE) && WellFormed(SELL_TABLE) && WellFormed(FUND_TABLE)
  {
    hide WellFormed;
    DecimalTable();
    SwapTable();
    SellTable();
    FundTable();
  }
}

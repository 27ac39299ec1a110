/** Instructions in the compact wire form, and the accounts they index. */
module CompactTypes {
  import opened Bytes
  import opened Wrappers

  datatype CompactInstruction = CompactInstruction(
    programIdIndex: u8,
    accountIndexes: seq<u8>,
    data: seq<byte>)

  /** An account handed to the program; `data` is None while another borrow holds it. */
  datatype AccountInfo = AccountInfo(
    key: Pubkey,
    isSigner: bool,
    isWritable: bool,
    owner: Pubkey,
    data: Option<seq<byte>>)
}

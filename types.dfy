/** The record and enum shapes shared by the redemption portal and the player. */
module Types {

  /** A value that may be absent (`null` / a failed load in the source). */
  datatype Option<+T> = None | Some(value: T)

  /** One row of the code table: the voucher a user types and the code it reveals. */
  datatype WifiCodeRecord = WifiCodeRecord(inputCode: string, outputCode: string)

  /** One entry of the compiled-in playlist. */
  datatype Track = Track(id: string, name: string, url: string)

  /** The outcome shown by the portal. `Error` is declared but never produced. */
  datatype Status = Idle | Success | Error | AlreadyUsed | Invalid
}

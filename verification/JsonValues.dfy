/** The JSON values that users and messages are made of. */
module JsonValues {

  datatype Json = JString(text: string) | JBool(flag: bool) | JNumber(number: int)

  type Fields = map<string, Json>
}

/** Types shared by the models. */
module Types {
  type Byte = b: nat | b < 256
}

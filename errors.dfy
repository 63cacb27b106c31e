/**
 * How the generator stops early. `Overflow` stands for a panic on integer
 * overflow in a build with overflow checks, whose semantics the model takes;
 * the other two are the errors the program reports through `?`.
 */
module Errors {

  datatype Error =
    | Overflow                 // u32 addition, `1 << epoch`, or the nonce counter overflowed
    | LockTimeHeight(n: nat)   // `LockTime::from_height` refused `n` as a block height
    | Bip34Unreadable          // `Block::bip34_block_height` returned an error
}

/** Failure values shared by the whole model. Every `throw` of the source becomes
    an `Err`/`Fail` carrying one of these, and every `undefined` an `Option`. */
module Errors {

  datatype Option<+T> = None | Some(value: T)

  datatype Error =
    | EmptyDeck                      // Deck.draw on an empty deck
    | CardNotFound                   // Player.removeCardByUUID, or a revealed id the hand lacks
    | InsufficientFunds              // Player.removeCoins past the balance, or a coin threshold
    | NotEnoughCards                 // dealInitialHands with too small a deck
    | PlayerNotFound                 // a chosen or named player is not active
    | NoTarget                       // a target list that the source indexes is empty
    | NoCurrentPlayer                // the turn index points at no active player
    | NoOptions                      // a prompt default read from an empty option list
    | NotImplemented(caseName: string)

  datatype Result<+T> = Ok(value: T) | Err(error: Error)

  datatype Outcome = Pass | Fail(error: Error)
}

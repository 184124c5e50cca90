/** The error outcomes the routers raise, with the HTTP status code each one carries. */
module Http {
  /** One `HTTPException` (or request-validation failure) per distinct cause. */
  datatype ApiError =
    | Forbidden                                              // caller is not a manager
    | NotFound                                               // the addressed record is absent
    | UnknownInventoryItem(itemId: int)                      // a transaction line names a missing item
    | InsufficientStock(itemName: string, available: int)    // a sale line asks for more than is in stock
    | SkuExists                                              // another inventory item holds the SKU
    | UsernameExists                                         // the username is already registered
    | CannotDeactivateSelf                                   // a manager tried to deactivate themself
    | Unprocessable                                          // the request body failed a model validator
  {
    /** The status code of the response. */
    function Status(): (code: int)
      ensures code in {400, 403, 404, 422}
      ensures code == 403 <==> this == Forbidden
      ensures code == 404 <==> this == NotFound
      ensures code == 422 <==> this == Unprocessable
    {
      match this
      case Forbidden => 403
      case NotFound => 404
      case Unprocessable => 422
      case _ => 400
    }
  }
}

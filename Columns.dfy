/** The names of the columns the feature-engineering functions read, assign and serve. */
module Columns {
  /** The column names the feature-engineering functions use, one constructor per
      pandas column (`user_id`, `age`, `age_group`, ...); any other column of a raw frame
      is an `Other` column. */
  datatype Col =
    | UserId | ProductId | EventTimestamp
    | Age | Gender | Location | RegistrationDate | IsPremium
    | TotalSessions | AvgSessionDuration | EngagementScore | LastLoginDays | FavoriteCategory | LastSessionDate
    | TotalSpent | AvgOrderValue | TotalOrders | LastPurchaseDays | FavoritePaymentMethod | LastPurchaseDate
    | Category | Price | AvgRating | TotalReviews | InventoryLevel
    | AgeGroup | IsMajorCity | GenderEncoded | RegistrationMonth | RegistrationDayOfWeek
    | SessionFrequency | SessionDurationCategory | EngagementLevel | ActivityRecency | FavoriteCategoryEncoded
    | SpendingLevel | OrderFrequency | PurchaseRecency | PaymentMethodEncoded | ClvEstimate | CustomerValue
    | PriceCategory | RatingCategory | ReviewVolume | InventoryStatus | CategoryEncoded
    | Other(name: string)
}

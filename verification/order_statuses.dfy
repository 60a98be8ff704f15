/** What has become of an order (app/models/entities.py). */
module OrderStatuses {
  datatype OrderStatus = New | Viewed | Contacted | Irrelevant | Archived
}

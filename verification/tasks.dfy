/**
 * A unit of pending work: one URL, compared by its URL string.
 * src/models/Task.js is not part of this model; the crawler only ever calls
 * `new Task(url)` and `task.getUrl()`, which this record provides.
 */
module Tasks {

  datatype Task = Task(url: string)
}

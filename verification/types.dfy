/** The records the application stores: a video and a video idea, plus the shapes passed between components. */
module Types {
  import opened Wrappers

  /** An uploaded video. `videoUrl` is an opaque handle; `thumbnail` is optional. */
  datatype Video = Video(
    id: string,
    title: string,
    description: string,
    date: string,
    videoUrl: string,
    thumbnail: Option<string>,
    uploadedAt: string)

  /** A freeform idea for a future video. */
  datatype VideoIdea = VideoIdea(id: string, title: string, description: string, createdAt: string)

  /** `Partial<VideoIdea>`: a field is present exactly when it is `Some`. */
  datatype IdeaPatch = IdeaPatch(
    id: Option<string>,
    title: Option<string>,
    description: Option<string>,
    createdAt: Option<string>)

  /** What the upload form hands to the application: a video without its id and upload time. */
  datatype VideoData = VideoData(title: string, description: string, date: string, videoUrl: string)

  /** What the idea form hands to the application for a new idea: `Omit<VideoIdea, 'id' | 'createdAt'>`. */
  datatype IdeaData = IdeaData(title: string, description: string)
}
